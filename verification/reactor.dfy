/**
 * react/Reactor.java as a class: the linked chain of cells, the
 * dispatching flag standing for the `DISPATCHING` sentinel, and the queue of
 * deferred runs are fields that the methods update in place. Every method is
 * proved to do to the reactor exactly what the function of the same name in
 * engine.dfy does to a `State`, and to keep the reactor invariant.
 */
module Reactors {
  import opened Common
  import opened Cons
  import opened Engine
  import EngineFacts

  class Reactor<P> {
    /** The cells linked into `_listeners`; during a pass, the snapshot being walked. */
    const chain: Chain
    var cells: Cells
    /** `_listeners == DISPATCHING`. */
    var dispatching: bool
    /** `_pendingRuns`, head first. */
    var pending: seq<Run<P>>
    var nextId: nat
    var log: seq<Delivery<P>>
    var errors: seq<Exn>
    var exhausted: bool

    /** The reactor as a value of the engine. */
    ghost function Model(): State<P>
      reads this, chain
    {
      State(chain.members, cells, dispatching, pending, nextId, log, errors, exhausted)
    }

    /** The links spell out the chain, and the engine's reactor invariant holds. */
    ghost predicate Valid()
      reads this, chain
    {
      chain.Valid() && EngineFacts.Valid(Model())
    }

    /** A reactor with no connections. */
    constructor ()
      ensures Valid() && Model() == Empty() && fresh(chain)
    {
      chain := new Chain();
      cells := map[];
      dispatching := false;
      pending := [];
      nextId := 0;
      log := [];
      errors := [];
      exhausted := false;
    }

    /** `hasConnections()`. */
    function HasConnections(): (r: bool)
      reads this, chain
      requires chain.Valid()
      ensures r <==> dispatching || chain.members != []
    {
      dispatching || !chain.IsEmpty()
    }

    /** `addCons(c)`. */
    method AddCons(c: CellId)
      requires chain.Valid() && (!dispatching ==> c !in chain.members)
      modifies this, chain
      ensures chain.Valid() && Model() == Engine.AddCons(old(Model()), c)
    {
      if dispatching {
        pending := pending + [InsertRun(c)];
      } else {
        chain.Insert(c, cells);
      }
    }

    /** `disconnect(c)`. */
    method Disconnect(c: CellId)
      requires chain.Valid()
      modifies this, chain
      ensures chain.Valid() && Model() == Engine.Disconnect(old(Model()), c)
    {
      if dispatching {
        pending := pending + [RemoveRun(c)];
      } else {
        chain.Remove(c);
      }
    }

    /** `removeConnection(l)`. */
    method RemoveConnection(l: Listener)
      requires Valid()
      modifies this, chain
      ensures Valid() && Model() == Engine.RemoveConnection(old(Model()), l)
    {
      ghost var st := Model();
      if dispatching {
        pending := pending + [RemoveAllRun(l)];
      } else {
        chain.RemoveAll(l, cells);
      }
      EngineFacts.RemoveConnectionValid(st, l);
    }

    /** `addConnection(listener)`: null is refused, otherwise a fresh open cell of priority 0 is added. */
    method AddConnection(listener: Option<nat>) returns (res: Result<CellId>)
      requires Valid()
      modifies this, chain
      ensures Valid() && (Model(), res) == Engine.AddConnection(old(Model()), listener)
    {
      if listener.None? {
        return Throws(NullPointer(NullListener));
      }
      ghost var st := Model();
      EngineFacts.ApplyValid(st, Connect(listener.value));
      var c := nextId;
      assert c !in chain.members;
      cells := cells[c := Cell(Slot(listener.value), 0, false, true)];
      nextId := c + 1;
      AddCons(c);
      res := Ok(c);
    }

    /** `Cons.close()`. */
    method Close(c: CellId)
      requires Valid()
      modifies this, chain
      ensures Valid() && Model() == Engine.Close(old(Model()), c)
    {
      EngineFacts.CloseValid(Model(), c);
      if c in cells && cells[c].owned {
        cells := cells[c := cells[c].(listener := Noop, owned := false)];
        Disconnect(c);
      }
    }

    /** `Cons.once()`. */
    method Once(c: CellId)
      requires Valid()
      modifies this
      ensures Valid() && Model() == Engine.Once(old(Model()), c)
    {
      EngineFacts.ApplyValid(Model(), SetOnce(c));
      if c in cells {
        cells := cells[c := cells[c].(oneShot := true)];
      }
    }

    /** `Cons.atPrio(p)`: IllegalStateException on a closed cell, otherwise re-insertion under `p`. */
    method AtPrio(c: CellId, p: int) returns (e: Option<Exn>)
      requires Valid()
      modifies this, chain
      ensures Valid() && (Model(), e) == Engine.AtPrio(old(Model()), c, p)
    {
      if !(c in cells && cells[c].owned) {
        return Some(IllegalState(PrioOfClosed));
      }
      ghost var st := Model();
      EngineFacts.ApplyValid(st, ChangePrio(c, p));
      EngineFacts.DisconnectValid(st, c);
      Disconnect(c);
      cells := cells[c := cells[c].(priority := p)];
      AddCons(c);
      e := None;
    }

    /** `clearConnections()`: IllegalStateException while dispatching, otherwise the chain is dropped. */
    method ClearConnections() returns (e: Option<Exn>)
      requires Valid()
      modifies this, chain
      ensures Valid() && (Model(), e) == Engine.ClearConnections(old(Model()))
    {
      if dispatching {
        return Some(IllegalState(ClearWhileDispatching));
      }
      chain.Clear();
      e := None;
    }

    /** One action of a listener invoked during a pass. */
    method Apply(a: Action<P>) returns (e: Option<Exn>)
      requires Valid() && dispatching
      modifies this, chain
      ensures Valid() && (Model(), e) == Engine.Apply(old(Model()), a)
    {
      ghost var st := Model();
      e := None;
      match a {
        case Connect(slot) =>
          var _ := AddConnection(Some(slot));
        case CloseCell(c) =>
          Close(c);
        case SetOnce(c) =>
          Once(c);
        case ChangePrio(c, p) =>
          e := AtPrio(c, p);
        case RemoveSlot(slot) =>
          RemoveConnection(Slot(slot));
        case Emit(p) =>
          EngineFacts.ApplyValid(st, a);
          pending := pending + [NotifyRun(p)];
        case Fail(x) =>
          e := Some(x);
      }
    }

    /** A listener's actions in order, stopping at the first that throws. */
    method RunScript(acts: seq<Action<P>>) returns (e: Option<Exn>)
      requires Valid() && dispatching
      modifies this, chain
      ensures Valid() && (Model(), e) == Engine.RunScript(old(Model()), acts)
    {
      var i := 0;
      while i < |acts|
        invariant 0 <= i <= |acts|
        invariant Valid() && dispatching
        invariant Engine.RunScript(Model(), acts[i..]) == Engine.RunScript(old(Model()), acts)
        decreases |acts| - i
      {
        assert acts[i..][0] == acts[i] && acts[i..][1..] == acts[i + 1..];
        e := Apply(acts[i]);
        if e.Some? {
          return;
        }
        i := i + 1;
      }
      e := None;
    }

    /** The listener call of the dispatch loop, catching what it throws. */
    method Invoke(script: (nat, P) -> seq<Action<P>>, c: CellId, p: P)
      requires Valid() && dispatching
      modifies this, chain
      ensures Valid() && Model() == Engine.Invoke(script, old(Model()), c, p)
    {
      var l := ListenerOf(cells, c);
      if l.Noop? {
        return;
      }
      log := log + [Delivery(c, l.id, p)];
      var e := RunScript(script(l.id, p));
      if e.Some? {
        errors := errors + [e.value];
      }
    }

    /** The body of the dispatch loop: invoke the cell, then close it if it is one-shot. */
    method Visit(script: (nat, P) -> seq<Action<P>>, c: CellId, p: P)
      requires Valid() && dispatching
      modifies this, chain
      ensures Valid() && Model() == Engine.Visit(script, old(Model()), c, p)
    {
      Invoke(script, c, p);
      if c in cells && cells[c].oneShot {
        Close(c);
      }
    }

    /**
     * The `try` block of `notify`: set the sentinel, walk the chain by its
     * links calling every cell, and clear the sentinel.
     */
    method FullPass(script: (nat, P) -> seq<Action<P>>, p: P)
      requires chain.Valid() && EngineFacts.Sound(Model()) && !dispatching
      modifies this, chain
      ensures chain.Valid() && EngineFacts.Sound(Model())
      ensures Model() == Engine.FullPass(script, old(Model()), p)
    {
      ghost var snap := chain.members;
      dispatching := true;
      ghost var start := Model();
      var cur := chain.head;
      ghost var i := 0;
      while cur.Some?
        invariant Valid() && dispatching && chain.members == snap
        invariant 0 <= i <= |snap| && cur == (if i < |snap| then Some(snap[i]) else None)
        invariant Pass(script, Model(), snap[i..], p) == Pass(script, start, snap, p)
        decreases |snap| - i
      {
        assert snap[i..][0] == snap[i] && snap[i..][1..] == snap[i + 1..];
        var c := cur.value;
        Visit(script, c, p);
        LinkedStep(chain.head, chain.next, snap, i);
        cur := chain.Link(c);
        i := i + 1;
      }
      assert snap[i..] == [];
      dispatching := false;
    }

    /** Take the first deferred run off the queue and perform it. */
    method DrainStep(script: (nat, P) -> seq<Action<P>>, fuel: nat) returns (rest: nat)
      requires chain.Valid() && EngineFacts.Sound(Model()) && !dispatching && pending != []
      modifies this, chain
      ensures chain.Valid() && EngineFacts.Sound(Model()) && !dispatching
      ensures (Model(), rest) == Engine.DrainStep(script, old(Model()), fuel)
    {
      EngineFacts.DrainStepSound(script, Model(), fuel);
      var run := pending[0];
      pending := pending[1..];
      ghost var s := Model();
      rest := fuel;
      match run {
        case InsertRun(c) =>
          chain.Insert(c, cells);
          assert Model() == s.(chain := Inserted(s.chain, s.cells, c));
        case RemoveRun(c) =>
          chain.Remove(c);
          assert Model() == s.(chain := Removed(s.chain, c));
        case RemoveAllRun(l) =>
          chain.RemoveAll(l, cells);
          assert Model() == s.(chain := RemovedAll(s.chain, s.cells, l));
        case NotifyRun(q) =>
          if fuel == 0 {
            exhausted := true;
            assert Model() == s.(exhausted := true);
          } else {
            FullPass(script, q);
            rest := fuel - 1;
          }
      }
    }

    /** The `finally` block of `notify`: perform the deferred runs in order. */
    method Drain(script: (nat, P) -> seq<Action<P>>, fuel: nat)
      requires chain.Valid() && EngineFacts.Sound(Model()) && !dispatching
      modifies this, chain
      ensures chain.Valid() && EngineFacts.Sound(Model())
      ensures Model() == Engine.Drain(script, old(Model()), fuel)
    {
      var f := fuel;
      while pending != []
        invariant chain.Valid() && EngineFacts.Sound(Model()) && !dispatching
        invariant Engine.Drain(script, Model(), f) == Engine.Drain(script, old(Model()), fuel)
        decreases f, |pending|
      {
        f := DrainStep(script, f);
      }
    }

    /**
     * `notify(p)`: queued while dispatching; otherwise a pass then the
     * deferred runs. Returns the exception the call rethrows.
     */
    method Notify(script: (nat, P) -> seq<Action<P>>, p: P, fuel: nat) returns (thrown: Option<Exn>)
      requires Valid()
      modifies this, chain
      ensures Valid() && Model() == Engine.Notify(script, old(Model()), p, fuel)
      ensures thrown == Thrown(old(Model()), Model())
    {
      ghost var st := Model();
      EngineFacts.NotifyValid(script, st, p, fuel);
      var before := |errors|;
      if dispatching {
        pending := pending + [NotifyRun(p)];
      } else {
        FullPass(script, p);
        Drain(script, fuel);
      }
      thrown := if before < |errors| then Some(errors[before]) else None;
    }
  }
}
