/**
 * The dispatch behaviour that react's signal tests pin down
 * (src/test/java/react/SignalTest.java), stated on the engine: delivery in
 * priority order, and the concrete runs of the tests that connect, close,
 * emit and throw from inside a listener.
 */
module SignalScenarios {
  import opened Common
  import opened Cons
  import opened Engine
  import opened EngineFacts

  // ---------------------------------------------------------------------
  // Delivery order
  // ---------------------------------------------------------------------

  /** The deliveries a pass makes to `snap` when no listener does anything: the open cells, in order. */
  function Deliveries<P>(snap: seq<CellId>, cells: Cells, p: P): (r: seq<Delivery<P>>)
    ensures |r| <= |snap|
    ensures forall d :: d in r ==> d.cell in snap && d.payload == p
  {
    if snap == [] then []
    else
      var l := ListenerOf(cells, snap[0]);
      (if l.Slot? then [Delivery(snap[0], l.id, p)] else []) + Deliveries(snap[1..], cells, p)
  }

  /** Only the listeners of the listed cells matter to `Deliveries`. */
  lemma {:induction false} DeliveriesFrame<P>(snap: seq<CellId>, a: Cells, b: Cells, p: P)
    requires forall x :: x in snap ==> ListenerOf(a, x) == ListenerOf(b, x)
    ensures Deliveries(snap, a, p) == Deliveries(snap, b, p)
  {
    if snap != [] {
      DeliveriesFrame(snap[1..], a, b, p);
    }
  }

  /** The deliveries to a snapshot are those to its first cell, then those to the rest. */
  lemma DeliveriesHead<P>(snap: seq<CellId>, cells: Cells, p: P)
    requires snap != []
    ensures Deliveries(snap, cells, p) == Deliveries([snap[0]], cells, p) + Deliveries(snap[1..], cells, p)
  {
    assert [snap[0]][1..] == [];
  }

  /** No listener does anything when given `p`. */
  ghost predicate Quiet<P>(script: (nat, P) -> seq<Action<P>>, p: P) {
    forall s: nat :: script(s, p) == []
  }

  /** Visiting a cell whose listener does nothing logs its delivery and touches no other cell. */
  lemma QuietVisit<P>(script: (nat, P) -> seq<Action<P>>, st: State<P>, c: CellId, p: P)
    requires Quiet(script, p)
    ensures var v := Visit(script, st, c, p);
      && (forall x :: x != c ==> ListenerOf(v.cells, x) == ListenerOf(st.cells, x))
      && v.log == st.log + Deliveries([c], st.cells, p)
  {
    var l := ListenerOf(st.cells, c);
    if l.Slot? {
      assert script(l.id, p) == [];
    }
  }

  /**
   * When no listener does anything, a pass over a duplicate-free snapshot
   * delivers to its open cells one after the other, in snapshot order.
   */
  lemma {:induction false} QuietPassOrder<P>(script: (nat, P) -> seq<Action<P>>, st: State<P>, snap: seq<CellId>, p: P)
    requires Quiet(script, p) && Distinct(snap)
    ensures Pass(script, st, snap, p).log == st.log + Deliveries(snap, st.cells, p)
    decreases |snap|
  {
    if snap != [] {
      var c, rest := snap[0], snap[1..];
      var v := Visit(script, st, c, p);
      QuietVisit(script, st, c, p);
      DistinctTail(snap);
      QuietPassOrder(script, v, rest, p);
      DeliveriesFrame(rest, v.cells, st.cells, p);
      DeliveriesHead(snap, st.cells, p);
      ConcatAssoc(st.log, Deliveries([c], st.cells, p), Deliveries(rest, st.cells, p));
    }
  }

  /**
   * Connections are served in priority order: at rest, a pass of listeners
   * that do nothing delivers to the chain from head to tail, and the chain
   * that `addConnection` and `atPrio` maintain runs from the highest
   * priority to the lowest, equal priorities in connection order.
   */
  lemma PriorityOrder<P>(script: (nat, P) -> seq<Action<P>>, st: State<P>, p: P)
    requires Valid(st) && !st.dispatching && Quiet(script, p)
    ensures FullPass(script, st, p).log == st.log + Deliveries(st.chain, st.cells, p)
  {
    QuietPassOrder(script, st.(dispatching := true), st.chain, p);
  }

  /** No queued run is a notification. */
  ghost predicate NoNotifyRuns<P>(pending: seq<Run<P>>) {
    forall r :: r in pending ==> !r.NotifyRun?
  }

  /** A pass of listeners that do nothing queues at most the removals of one-shot cells. */
  lemma {:induction false} QuietPassQueues<P>(script: (nat, P) -> seq<Action<P>>, st: State<P>, snap: seq<CellId>, p: P)
    requires Quiet(script, p) && NoNotifyRuns(st.pending)
    ensures var r := Pass(script, st, snap, p);
      NoNotifyRuns(r.pending) && r.errors == st.errors
    decreases |snap|
  {
    if snap != [] {
      var l := ListenerOf(st.cells, snap[0]);
      if l.Slot? {
        assert script(l.id, p) == [];
      }
      QuietPassQueues(script, Visit(script, st, snap[0], p), snap[1..], p);
    }
  }

  /** Draining a queue without notifications delivers nothing and catches nothing. */
  lemma {:induction false} DrainNoNotify<P>(script: (nat, P) -> seq<Action<P>>, st: State<P>, fuel: nat)
    requires NoNotifyRuns(st.pending)
    ensures var r := Drain(script, st, fuel);
      r.log == st.log && r.errors == st.errors
    decreases |st.pending|
  {
    if st.pending != [] {
      assert st.pending[0] in st.pending;
      var (s, f) := DrainStep(script, st, fuel);
      assert s.pending == st.pending[1..];
      assert NoNotifyRuns(s.pending) by {
        forall r | r in s.pending ensures !r.NotifyRun? {
          assert r in st.pending;
        }
      }
      DrainNoNotify(script, s, f);
    }
  }

  /**
   * A `notify` at rest whose listeners do nothing: every open cell of the
   * chain receives the payload once, in chain order, nothing else is
   * delivered, and nothing is thrown.
   */
  lemma QuietNotify<P>(script: (nat, P) -> seq<Action<P>>, st: State<P>, p: P, fuel: nat)
    requires Valid(st) && !st.dispatching && Quiet(script, p)
    ensures var r := Notify(script, st, p, fuel);
      && r.log == st.log + Deliveries(st.chain, st.cells, p)
      && r.errors == st.errors
      && Thrown(st, r).None?
  {
    var s1 := st.(dispatching := true);
    PriorityOrder(script, st, p);
    QuietPassQueues(script, s1, st.chain, p);
    DrainNoNotify(script, FullPass(script, st, p), fuel);
  }

  // ---------------------------------------------------------------------
  // SignalTest.testRemoveDuringDispatch: the listener at priority 1 closes
  // the connection of the listener at priority 0 before its turn.
  // ---------------------------------------------------------------------

  function Closer(slot: nat, v: int): seq<Action<int>> {
    if slot == 2 then [CloseCell(0)] else []
  }

  function RemovalStart(): State<int> {
    State([1, 0], map[0 := Cell(Slot(1), 0, false, true), 1 := Cell(Slot(2), 1, false, true)], false, [], 2, [], [], false)
  }

  function RemovalClosed(): Cells {
    map[0 := Cell(Noop, 0, false, false), 1 := Cell(Slot(2), 1, false, true)]
  }

  lemma RemovalPass()
    ensures FullPass(Closer, RemovalStart(), 42)
         == State([1, 0], RemovalClosed(), false, [RemoveRun(0)], 2, [Delivery(1, 2, 42)], [], false)
  {
    var d := RemovalStart().(dispatching := true);
    var v1 := State([1, 0], RemovalClosed(), true, [RemoveRun(0)], 2, [Delivery(1, 2, 42)], [], false);
    var d1 := d.(log := [Delivery(1, 2, 42)]);
    assert d1.cells[0 := d1.cells[0].(listener := Noop, owned := false)] == RemovalClosed();
    assert Close(d1, 0) == v1;
    var acts: seq<Action<int>> := [CloseCell(0)];
    assert acts[1..] == [];
    assert RunScript(d1, [CloseCell(0)]) == (v1, None);
    assert Visit(Closer, d, 1, 42) == v1;
    assert Visit(Closer, v1, 0, 42) == v1;
    PassPair(Closer, d, 1, 0, 42);
  }

  /**
   * The closed connection receives nothing in the pass that closed it,
   * although it was still in the snapshot, and it is unlinked afterwards.
   */
  lemma RemoveDuringDispatch()
    ensures var r := Notify(Closer, RemovalStart(), 42, 0);
      && r.log == [Delivery(1, 2, 42)]
      && r.chain == [1] && ListenerOf(r.cells, 0) == Noop && r.pending == []
  {
    RemovalPass();
    var f := State([1, 0], RemovalClosed(), false, [RemoveRun(0)], 2, [Delivery(1, 2, 42)], [], false);
    assert DrainStep(Closer, f, 0).0 == f.(pending := [], chain := [1]);
  }

  // ---------------------------------------------------------------------
  // SignalTest.testDispatchDuringDispatch: a one-shot listener re-emits
  // twice the value it gets, and fails if it is ever called again.
  // ---------------------------------------------------------------------

  /**
   * The test's listener calls `fail(...)` on a second call, which throws
   * an `Error` the reactor does not catch; that branch is never reached
   * here, and a runtime exception stands in for it.
   */
  function Doubler(slot: nat, v: int): seq<Action<int>> {
    if slot != 2 then []
    else if v == 5 then [Emit(v * 2)]
    else [Fail(Runtime("java.lang.RuntimeException", "once() lner notified more than once"))]
  }

  function Counted(): Cells {
    map[0 := Cell(Slot(1), 0, false, true), 1 := Cell(Slot(2), 0, true, true)]
  }

  function Spent(): Cells {
    map[0 := Cell(Slot(1), 0, false, true), 1 := Cell(Noop, 0, true, false)]
  }

  function NestedStart(): State<int> { State([0, 1], Counted(), false, [], 2, [], [], false) }

  function FirstPass(): State<int> {
    State([0, 1], Spent(), false, [NotifyRun(10), RemoveRun(1)], 2, [Delivery(0, 1, 5), Delivery(1, 2, 5)], [], false)
  }

  lemma NestedFirstPass()
    ensures FullPass(Doubler, NestedStart(), 5) == FirstPass()
  {
    var d := NestedStart().(dispatching := true);
    var v0 := d.(log := [Delivery(0, 1, 5)]);
    assert Visit(Doubler, d, 0, 5) == v0;
    NestedOneShotVisit();
    PassPair(Doubler, d, 0, 1, 5);
  }

  /** The one-shot listener's first call queues the emission of 10, and its cell is closed. */
  lemma NestedOneShotVisit()
    ensures var v0 := NestedStart().(dispatching := true, log := [Delivery(0, 1, 5)]);
      Visit(Doubler, v0, 1, 5) == FirstPass().(dispatching := true)
  {
    var v0 := NestedStart().(dispatching := true, log := [Delivery(0, 1, 5)]);
    var d1 := v0.(log := [Delivery(0, 1, 5), Delivery(1, 2, 5)]);
    assert d1.pending == [];
    var e1 := d1.(pending := d1.pending + [NotifyRun(10)]);
    assert Doubler(2, 5) == [Emit(10)];
    assert Apply(d1, Emit(10)) == (e1, None);
    var acts: seq<Action<int>> := [Emit(10)];
    assert acts[1..] == [];
    assert RunScript(d1, [Emit(10)]) == (e1, None);
    assert e1.cells[1 := e1.cells[1].(listener := Noop, owned := false)] == Spent();
    assert Close(e1, 1) == FirstPass().(dispatching := true);
  }

  lemma NestedSecondPass()
    ensures FullPass(Doubler, FirstPass().(pending := [RemoveRun(1)]), 10)
         == FirstPass().(pending := [RemoveRun(1)], log := FirstPass().log + [Delivery(0, 1, 10)])
  {
    var s := FirstPass().(pending := [RemoveRun(1)]);
    var d := s.(dispatching := true);
    var v0 := d.(log := s.log + [Delivery(0, 1, 10)]);
    assert Visit(Doubler, d, 0, 10) == v0;
    assert Visit(Doubler, v0, 1, 10) == v0;
    PassPair(Doubler, d, 0, 1, 10);
  }

  function SecondPass(): State<int> {
    FirstPass().(pending := [RemoveRun(1)], log := FirstPass().log + [Delivery(0, 1, 10)])
  }

  lemma NestedDrain()
    ensures Drain(Doubler, FirstPass(), 1) == SecondPass().(pending := [], chain := [0])
  {
    NestedQueuedEmit();
    NestedQueuedRemove();
  }

  /** The queued emission runs a full pass of its own, with the fuel it was given. */
  lemma NestedQueuedEmit()
    ensures DrainStep(Doubler, FirstPass(), 1) == (SecondPass(), 0)
  {
    NestedSecondPass();
  }

  /** The queued removal unlinks the spent one-shot cell. */
  lemma NestedQueuedRemove()
    ensures DrainStep(Doubler, SecondPass(), 0).0 == SecondPass().(pending := [], chain := [0])
  {
  }

  /**
   * The emission made during the pass is delivered after it, to the
   * counter only: the counter sees 5 then 10, and the one-shot listener,
   * closed at the end of its first call, is never called again.
   */
  lemma DispatchDuringDispatch()
    ensures var r := Notify(Doubler, NestedStart(), 5, 1);
      && r.log == [Delivery(0, 1, 5), Delivery(1, 2, 5), Delivery(0, 1, 10)]
      && r.errors == [] && r.chain == [0] && r.pending == [] && !r.exhausted
  {
    NestedFirstPass();
    NestedDrain();
  }

  // ---------------------------------------------------------------------
  // SignalTest.testMultiFailure: two listeners that both throw.
  // ---------------------------------------------------------------------

  function Bing(): Exn { Runtime("java.lang.RuntimeException", "Bing!") }
  function Bang(): Exn { Runtime("java.lang.RuntimeException", "Bang!") }

  function Thrower(slot: nat, v: int): seq<Action<int>> {
    if slot == 1 then [Fail(Bing())] else if slot == 2 then [Fail(Bang())] else []
  }

  function Throwers(): State<int> {
    State([0, 1], map[0 := Cell(Slot(1), 0, false, true), 1 := Cell(Slot(2), 0, false, true)], false, [], 2, [], [], false)
  }

  /**
   * The first failure does not stop the pass: both listeners are called,
   * both exceptions are collected in order, and the first is the one the
   * call rethrows.
   */
  lemma MultiFailure()
    ensures var r := Notify(Thrower, Throwers(), 0, 0);
      && r.log == [Delivery(0, 1, 0), Delivery(1, 2, 0)]
      && r.errors == [Bing(), Bang()]
      && Thrown(Throwers(), r) == Some(Bing())
  {
    ThrowPass();
    var f := ThrownTwice().(dispatching := false);
    assert Notify(Thrower, Throwers(), 0, 0) == f;
    assert Thrown(Throwers(), f) == Some(f.errors[0]);
  }

  function ThrownTwice(): State<int> {
    ThrownOnce().(log := [Delivery(0, 1, 0), Delivery(1, 2, 0)], errors := [Bing(), Bang()])
  }

  lemma ThrowPass()
    ensures FullPass(Thrower, Throwers(), 0) == ThrownTwice().(dispatching := false)
  {
    var d := Throwers().(dispatching := true);
    ThrowFirst();
    ThrowSecond();
    PassPair(Thrower, d, 0, 1, 0);
  }

  function ThrownOnce(): State<int> {
    Throwers().(dispatching := true, log := [Delivery(0, 1, 0)], errors := [Bing()])
  }

  /** The first listener throws Bing!, which is logged as caught. */
  lemma ThrowFirst()
    ensures Visit(Thrower, Throwers().(dispatching := true), 0, 0) == ThrownOnce()
  {
    var d := Throwers().(dispatching := true);
    assert RunScript(d.(log := [Delivery(0, 1, 0)]), [Fail(Bing())]).1 == Some(Bing());
  }

  /** The second listener is still called, and its Bang! is caught after Bing!. */
  lemma ThrowSecond()
    ensures Visit(Thrower, ThrownOnce(), 1, 0) == ThrownTwice()
  {
    var v0 := ThrownOnce();
    assert RunScript(v0.(log := [Delivery(0, 1, 0), Delivery(1, 2, 0)]), [Fail(Bang())]).1 == Some(Bang());
  }

  // ---------------------------------------------------------------------
  // SignalTest.testAddDuringDispatch: a one-shot listener connects another.
  // ---------------------------------------------------------------------

  function Adder(slot: nat, v: int): seq<Action<int>> {
    if slot == 1 then [Connect(2)] else []
  }

  function AddStart(): State<int> {
    State([0], map[0 := Cell(Slot(1), 0, true, true)], false, [], 1, [], [], false)
  }

  function Added(): Cells {
    map[0 := Cell(Noop, 0, true, false), 1 := Cell(Slot(2), 0, false, true)]
  }

  function AddAfter(): State<int> {
    State([1], Added(), false, [], 2, [Delivery(0, 1, 5)], [], false)
  }

  lemma AddFirstNotify()
    ensures Notify(Adder, AddStart(), 5, 0) == AddAfter()
  {
    AddFirstPass();
    AddFirstDrain();
  }

  function AddPassed(): State<int> {
    State([0], Added(), false, [InsertRun(1), RemoveRun(0)], 2, [Delivery(0, 1, 5)], [], false)
  }

  /** The listener connects a new cell, whose insertion is queued; its own one-shot cell is closed. */
  lemma AddFirstPass()
    ensures FullPass(Adder, AddStart(), 5) == AddPassed()
  {
    AddVisit();
    PassOne(Adder, AddStart().(dispatching := true), 0, 5);
  }

  lemma AddVisit()
    ensures Visit(Adder, AddStart().(dispatching := true), 0, 5) == AddPassed().(dispatching := true)
  {
    var d := AddStart().(dispatching := true);
    var d1 := d.(log := [Delivery(0, 1, 5)]);
    var e1 := d1.(cells := map[0 := Cell(Slot(1), 0, true, true), 1 := Cell(Slot(2), 0, false, true)], nextId := 2, pending := [InsertRun(1)]);
    assert d1.cells[1 := Cell(Slot(2), 0, false, true)] == e1.cells;
    assert d1.nextId == 1 && d1.pending == [];
    assert AddConnection(d1, Some(2)).0 == e1;
    assert Apply(d1, Connect(2)) == (e1, None);
    var acts: seq<Action<int>> := [Connect(2)];
    assert acts[1..] == [];
    assert RunScript(d1, [Connect(2)]) == (e1, None);
    assert e1.cells[0 := e1.cells[0].(listener := Noop, owned := false)] == Added();
    assert Close(e1, 0) == AddPassed().(dispatching := true);
  }

  /** After the pass, the new cell is linked and the closed one unlinked. */
  lemma AddFirstDrain()
    ensures Drain(Adder, AddPassed(), 0) == AddAfter()
  {
    var g := AddPassed();
    assert Inserted([0], Added(), 1) == [0, 1];
    var h := DrainStep(Adder, g, 0).0;
    assert h == g.(pending := [RemoveRun(0)], chain := [0, 1]);
    assert DrainStep(Adder, h, 0).0 == AddAfter();
  }

  /**
   * The connection made during the first emission gets nothing from it,
   * and receives the second emission.
   */
  lemma AddDuringDispatch()
    ensures var r1 := Notify(Adder, AddStart(), 5, 0);
      var r2 := Notify(Adder, r1, 42, 0);
      && r1.log == [Delivery(0, 1, 5)]
      && r2.log == [Delivery(0, 1, 5), Delivery(1, 2, 42)]
  {
    AddFirstNotify();
    AddSecondPass();
    var f := AddAfter().(log := [Delivery(0, 1, 5), Delivery(1, 2, 42)]);
    assert Notify(Adder, AddAfter(), 42, 0) == f;
  }

  /** The second emission reaches the connection made during the first. */
  lemma AddSecondPass()
    ensures FullPass(Adder, AddAfter(), 42) == AddAfter().(log := [Delivery(0, 1, 5), Delivery(1, 2, 42)])
  {
    var d := AddAfter().(dispatching := true);
    assert Visit(Adder, d, 1, 42) == d.(log := [Delivery(0, 1, 5), Delivery(1, 2, 42)]);
    PassOne(Adder, d, 1, 42);
  }

  // ---------------------------------------------------------------------
  // Two `atPrio` calls in one pass, with the corrected `atPrio`
  // (`Engine.AtPrio`). The priority is set at once and the re-link is
  // queued, so the first re-insertion already sees the second cell's new
  // priority: a(9), b(5), x(4), y(1), with a's listener calling
  // `a.atPrio(3)` then `b.atPrio(0)`, ends as a(3), x(4), y(1), b(0).
  // The `atPrio` as written instead ends the pass after a and drops open
  // cells from the chain (`Findings.AtPrioDuringPassDropsCell`).
  // ---------------------------------------------------------------------

  function Reprioritizer(slot: nat, v: int): seq<Action<int>> {
    if slot == 0 then [ChangePrio(0, 3), ChangePrio(1, 0)] else []
  }

  function PrioStart(): State<int> {
    State([0, 1, 2, 3],
      map[0 := Cell(Slot(0), 9, false, true), 1 := Cell(Slot(1), 5, false, true),
          2 := Cell(Slot(2), 4, false, true), 3 := Cell(Slot(3), 1, false, true)],
      false, [], 4, [], [], false)
  }

  function Reprioritized(): Cells {
    map[0 := Cell(Slot(0), 3, false, true), 1 := Cell(Slot(1), 0, false, true),
        2 := Cell(Slot(2), 4, false, true), 3 := Cell(Slot(3), 1, false, true)]
  }

  function PrioPassed(): State<int> {
    State([0, 1, 2, 3], Reprioritized(), false, [RemoveRun(0), InsertRun(0), RemoveRun(1), InsertRun(1)], 4,
      [Delivery(0, 0, 7), Delivery(1, 1, 7), Delivery(2, 2, 7), Delivery(3, 3, 7)], [], false)
  }

  /** The first listener's two calls change both priorities at once and queue four runs. */
  lemma PrioFirstVisit()
    ensures var d := PrioStart().(dispatching := true);
      Visit(Reprioritizer, d, 0, 7)
        == PrioPassed().(dispatching := true, log := [Delivery(0, 0, 7)])
  {
    var d1 := PrioStart().(dispatching := true, log := [Delivery(0, 0, 7)]);
    var e1 := d1.(cells := d1.cells[0 := d1.cells[0].(priority := 3)], pending := [RemoveRun(0), InsertRun(0)]);
    assert Disconnect(d1, 0) == d1.(pending := [RemoveRun(0)]);
    var t1 := d1.(pending := [RemoveRun(0)]);
    var t2 := t1.(cells := t1.cells[0 := t1.cells[0].(priority := 3)]);
    assert 0 in d1.cells && d1.cells[0].owned;
    assert AtPrio(d1, 0, 3) == (AddCons(t2, 0), None);
    assert t2.pending + [InsertRun(0)] == [RemoveRun(0), InsertRun(0)];
    assert AddCons(t2, 0) == e1;
    assert AtPrio(d1, 0, 3) == (e1, None);
    var e2 := PrioPassed().(dispatching := true, log := [Delivery(0, 0, 7)]);
    assert e1.cells[1 := e1.cells[1].(priority := 0)] == Reprioritized();
    assert Disconnect(e1, 1) == e1.(pending := [RemoveRun(0), InsertRun(0), RemoveRun(1)]);
    var u1 := e1.(pending := [RemoveRun(0), InsertRun(0), RemoveRun(1)]);
    var u2 := u1.(cells := u1.cells[1 := u1.cells[1].(priority := 0)]);
    assert 1 in e1.cells && e1.cells[1].owned;
    assert AtPrio(e1, 1, 0) == (AddCons(u2, 1), None);
    assert u2.pending + [InsertRun(1)] == e2.pending;
    assert AddCons(u2, 1) == e2;
    assert AtPrio(e1, 1, 0) == (e2, None);
    var acts: seq<Action<int>> := [ChangePrio(0, 3), ChangePrio(1, 0)];
    assert acts[1..][1..] == [];
    assert RunScript(d1, acts) == (e2, None);
  }

  lemma PrioPass()
    ensures FullPass(Reprioritizer, PrioStart(), 7) == PrioPassed()
  {
    var d := PrioStart().(dispatching := true);
    var v0 := PrioPassed().(dispatching := true, log := [Delivery(0, 0, 7)]);
    PrioFirstVisit();
    var v1 := v0.(log := v0.log + [Delivery(1, 1, 7)]);
    var v2 := v1.(log := v1.log + [Delivery(2, 2, 7)]);
    assert Visit(Reprioritizer, v0, 1, 7) == v1;
    assert Visit(Reprioritizer, v1, 2, 7) == v2;
    assert [0, 1, 2, 3][1..] == [1, 2, 3];
    assert [1, 2, 3][1..] == [2, 3];
    PassPair(Reprioritizer, v1, 2, 3, 7);
  }

  /**
   * The drain: a is unlinked and re-inserted in front of b, whose priority
   * is already 0; then b is unlinked and re-inserted at the end.
   */
  lemma PrioDrain()
    ensures Drain(Reprioritizer, PrioPassed(), 0) == PrioPassed().(chain := [0, 2, 3, 1], pending := [])
  {
    var s := PrioPassed();
    var s1 := s.(chain := [1, 2, 3], pending := [InsertRun(0), RemoveRun(1), InsertRun(1)]);
    assert DrainStep(Reprioritizer, s, 0) == (s1, 0);
    var s2 := s1.(chain := [0, 1, 2, 3], pending := [RemoveRun(1), InsertRun(1)]);
    assert s1.pending[1..] == [RemoveRun(1), InsertRun(1)];
    assert Inserted([1, 2, 3], Reprioritized(), 0) == [0, 1, 2, 3];
    assert DrainStep(Reprioritizer, s1, 0) == (s2, 0);
    var s3 := s2.(chain := [0, 2, 3], pending := [InsertRun(1)]);
    assert s2.pending[1..] == [InsertRun(1)];
    assert [0, 1, 2, 3][1..] == [1, 2, 3] && [1, 2, 3][1..] == [2, 3];
    assert Removed([0, 1, 2, 3], 1) == [0, 2, 3];
    assert DrainStep(Reprioritizer, s2, 0) == (s3, 0);
    assert Inserted([0, 2, 3], Reprioritized(), 1) == [0, 2, 3, 1];
    assert DrainStep(Reprioritizer, s3, 0) == (s3.(chain := [0, 2, 3, 1], pending := []), 0);
  }

  lemma PrioStartSorted()
    ensures NonIncreasing(PrioStart().chain, PrioStart().cells)
  {
    var cells := PrioStart().cells;
    assert Prio(cells, 0) == 9 && Prio(cells, 1) == 5 && Prio(cells, 2) == 4 && Prio(cells, 3) == 1;
    var s := [0, 1, 2, 3];
    assert forall i :: 0 <= i < 4 ==> s[i] == i;
  }

  /** a(3) stands before x(4). */
  lemma ReprioritizedUnsorted()
    ensures !NonIncreasing([0, 2, 3, 1], Reprioritized())
  {
    var s := [0, 2, 3, 1];
    assert Prio(Reprioritized(), s[0]) < Prio(Reprioritized(), s[1]);
  }

  /** The chain starts sorted and ends unsorted. */
  lemma TwoPrioChangesInPass()
    ensures NonIncreasing(PrioStart().chain, PrioStart().cells)
    ensures var r := Notify(Reprioritizer, PrioStart(), 7, 0);
      && r.chain == [0, 2, 3, 1] && r.cells == Reprioritized()
      && !NonIncreasing(r.chain, r.cells)
  {
    PrioPass();
    PrioDrain();
    assert Notify(Reprioritizer, PrioStart(), 7, 0) == PrioPassed().(chain := [0, 2, 3, 1], pending := []);
    PrioStartSorted();
    ReprioritizedUnsorted();
  }
}
