/**
 * Properties of the dispatch engine: the reactor invariant and its
 * preservation by every operation, and what a dispatch pass delivers.
 */
module EngineFacts {
  import opened Common
  import opened Cons
  import opened Engine

  // ---------------------------------------------------------------------
  // The deferred-run queue, simulated on chain membership
  // ---------------------------------------------------------------------

  ghost function Members(s: seq<CellId>): set<CellId> {
    set x | x in s
  }

  /** Which cells are linked after one deferred run, as far as insertions and removals of one cell go. */
  ghost function Step<P>(m: set<CellId>, run: Run<P>): set<CellId> {
    match run
    case InsertRun(c) => m + {c}
    case RemoveRun(c) => m - {c}
    case _ => m
  }

  /** Membership after a queue of runs (an over-approximation: `removeAll` is taken to remove nothing). */
  ghost function After<P>(m: set<CellId>, runs: seq<Run<P>>): set<CellId>
    decreases |runs|
  {
    if runs == [] then m else After(Step(m, runs[0]), runs[1..])
  }

  /** Every queued insertion finds its cell unlinked, so the drained chain stays duplicate-free. */
  ghost predicate Queued<P>(m: set<CellId>, runs: seq<Run<P>>)
    decreases |runs|
  {
    runs == [] || ((runs[0].InsertRun? ==> runs[0].cell !in m) && Queued(Step(m, runs[0]), runs[1..]))
  }

  lemma {:induction false} AfterAppend<P>(m: set<CellId>, runs: seq<Run<P>>, run: Run<P>)
    ensures After(m, runs + [run]) == Step(After(m, runs), run)
    decreases |runs|
  {
    if runs != [] {
      assert (runs + [run])[0] == runs[0];
      assert (runs + [run])[1..] == runs[1..] + [run];
      AfterAppend(Step(m, runs[0]), runs[1..], run);
    } else {
      assert [run][1..] == [];
    }
  }

  /** Queuing one more run keeps the queue sound when an insertion's cell is unlinked by then. */
  lemma {:induction false} QueuedAppend<P>(m: set<CellId>, runs: seq<Run<P>>, run: Run<P>)
    requires Queued(m, runs)
    requires run.InsertRun? ==> run.cell !in After(m, runs)
    ensures Queued(m, runs + [run])
    decreases |runs|
  {
    if runs != [] {
      assert (runs + [run])[0] == runs[0];
      assert (runs + [run])[1..] == runs[1..] + [run];
      QueuedAppend(Step(m, runs[0]), runs[1..], run);
    } else {
      assert [run][1..] == [];
    }
  }

  /** A smaller chain keeps the queue sound. */
  lemma {:induction false} QueuedMono<P>(m: set<CellId>, m': set<CellId>, runs: seq<Run<P>>)
    requires Queued(m, runs) && m' <= m
    ensures Queued(m', runs)
    decreases |runs|
  {
    if runs != [] {
      QueuedMono(Step(m, runs[0]), Step(m', runs[0]), runs[1..]);
    }
  }

  /** Queued insertions only mention cells below `n`. */
  ghost predicate InsertsBelow<P>(runs: seq<Run<P>>, n: nat) {
    forall i :: 0 <= i < |runs| && runs[i].InsertRun? ==> runs[i].cell < n
  }

  lemma {:induction false} AfterBelow<P>(m: set<CellId>, runs: seq<Run<P>>, n: nat)
    requires forall x :: x in m ==> x < n
    requires InsertsBelow(runs, n)
    ensures forall x :: x in After(m, runs) ==> x < n
    decreases |runs|
  {
    if runs != [] {
      assert InsertsBelow(runs[1..], n) by {
        forall i | 0 <= i < |runs[1..]| && runs[1..][i].InsertRun? ensures runs[1..][i].cell < n {
          assert runs[1..][i] == runs[i + 1];
        }
      }
      AfterBelow(Step(m, runs[0]), runs[1..], n);
    }
  }

  // ---------------------------------------------------------------------
  // The reactor invariant
  // ---------------------------------------------------------------------

  /**
   * The invariant of a reactor between any two steps of the engine: the
   * chain is duplicate-free and made of known cells, ids are fresh above
   * `nextId`, a cell is closed exactly when it holds the placeholder
   * listener, and draining the queue never links a cell twice.
   */
  ghost predicate Sound<P>(st: State<P>) {
    && Distinct(st.chain)
    && IdsBelow(st)
    && (forall c :: c in st.chain ==> c in st.cells)
    && (forall c :: c in st.cells ==> (st.cells[c].listener == Noop <==> !st.cells[c].owned))
    && (forall i :: 0 <= i < |st.pending| && st.pending[i].InsertRun? ==> st.pending[i].cell in st.cells)
    && Queued(Members(st.chain), st.pending)
  }

  /** A reactor at rest or inside a pass: outside a pass nothing is queued. */
  ghost predicate Valid<P>(st: State<P>) {
    Sound(st) && (st.dispatching || st.pending == [])
  }

  lemma SoundQueueFresh<P>(st: State<P>)
    requires Sound(st)
    ensures st.nextId !in After(Members(st.chain), st.pending)
  {
    AfterBelow(Members(st.chain), st.pending, st.nextId);
  }

  /** The empty reactor satisfies the invariant. */
  lemma EmptyValid<P>()
    ensures Valid(Empty<P>()) && !Empty<P>().dispatching && !HasConnections(Empty<P>())
  {
  }

  lemma AddConsValid<P>(st: State<P>, c: CellId)
    requires Sound(st) && c in st.cells
    requires st.dispatching ==> c !in After(Members(st.chain), st.pending)
    requires !st.dispatching ==> st.pending == [] && c !in st.chain
    ensures Sound(AddCons(st, c))
  {
    var r := AddCons(st, c);
    if st.dispatching {
      QueuedAppend(Members(st.chain), st.pending, InsertRun(c));
    } else {
      InsertedDistinct(st.chain, st.cells, c);
      InsertedContents(st.chain, st.cells, c);
    }
  }

  lemma DisconnectValid<P>(st: State<P>, c: CellId)
    requires Sound(st)
    requires !st.dispatching ==> st.pending == []
    ensures Sound(Disconnect(st, c))
    ensures st.dispatching ==> c !in After(Members(st.chain), Disconnect(st, c).pending)
    ensures !st.dispatching ==> c !in Disconnect(st, c).chain
  {
    if st.dispatching {
      QueuedAppend(Members(st.chain), st.pending, RemoveRun(c));
      AfterAppend(Members(st.chain), st.pending, RemoveRun(c));
    } else {
      RemovedMembers(st.chain, c);
    }
  }

  /** `addConnection` keeps the invariant. */
  lemma AddConnectionValid<P>(st: State<P>, slot: nat)
    requires Valid(st)
    ensures Valid(AddConnection(st, Some(slot)).0)
  {
    var c := st.nextId;
    var st1 := st.(cells := st.cells[c := Cell(Slot(slot), 0, false, true)], nextId := c + 1);
    if st.dispatching {
      SoundQueueFresh(st);
    }
    AddConsValid(st1, c);
  }

  /** `atPrio` keeps the invariant. */
  lemma AtPrioValid<P>(st: State<P>, c: CellId, p: int)
    requires Valid(st)
    ensures Valid(AtPrio(st, c, p).0)
  {
    if c in st.cells && st.cells[c].owned {
      var st1 := Disconnect(st, c);
      DisconnectValid(st, c);
      var st2 := st1.(cells := st1.cells[c := st1.cells[c].(priority := p)]);
      AddConsValid(st2, c);
    }
  }

  /** `removeConnection` keeps the invariant. */
  lemma RemoveConnectionValid<P>(st: State<P>, l: Listener)
    requires Valid(st)
    ensures Valid(RemoveConnection(st, l))
  {
    if st.dispatching {
      QueuedAppend(Members(st.chain), st.pending, RemoveAllRun(l));
    } else {
      RemovedAllKeepsOrder(st.chain, st.cells, l);
      RemovedAllMembers(st.chain, st.cells, l);
    }
  }

  lemma ApplyValid<P>(st: State<P>, a: Action<P>)
    requires Valid(st)
    requires a.Emit? ==> st.dispatching
    ensures Valid(Apply(st, a).0)
  {
    match a
    case Connect(slot) => AddConnectionValid(st, slot);
    case CloseCell(c) => CloseValid(st, c);
    case SetOnce(c) =>
    case ChangePrio(c, p) => AtPrioValid(st, c, p);
    case RemoveSlot(slot) => RemoveConnectionValid(st, Slot(slot));
    case Emit(p) => QueuedAppend(Members(st.chain), st.pending, NotifyRun(p));
    case Fail(e) =>
  }

  lemma {:induction false} RunScriptValid<P>(st: State<P>, acts: seq<Action<P>>)
    requires Valid(st) && st.dispatching
    ensures Valid(RunScript(st, acts).0)
    decreases |acts|
  {
    if acts != [] {
      ApplyValid(st, acts[0]);
      var (st1, e) := Apply(st, acts[0]);
      if e.None? {
        RunScriptValid(st1, acts[1..]);
      }
    }
  }

  lemma CloseValid<P>(st: State<P>, c: CellId)
    requires Valid(st)
    ensures Valid(Close(st, c))
  {
    if c in st.cells && st.cells[c].owned {
      DisconnectValid(st.(cells := st.cells[c := st.cells[c].(listener := Noop, owned := false)]), c);
    }
  }

  lemma VisitValid<P>(script: (nat, P) -> seq<Action<P>>, st: State<P>, c: CellId, p: P)
    requires Valid(st) && st.dispatching
    ensures Valid(Visit(script, st, c, p))
  {
    var l := ListenerOf(st.cells, c);
    if l.Slot? {
      var st1 := st.(log := st.log + [Delivery(c, l.id, p)]);
      RunScriptValid(st1, script(l.id, p));
    }
    CloseValid(Invoke(script, st, c, p), c);
  }

  lemma {:induction false} PassValid<P>(script: (nat, P) -> seq<Action<P>>, st: State<P>, snap: seq<CellId>, p: P)
    requires Valid(st) && st.dispatching
    ensures Valid(Pass(script, st, snap, p))
    decreases |snap|
  {
    if snap != [] {
      VisitValid(script, st, snap[0], p);
      PassValid(script, Visit(script, st, snap[0], p), snap[1..], p);
    }
  }

  lemma FullPassSound<P>(script: (nat, P) -> seq<Action<P>>, st: State<P>, p: P)
    requires Sound(st)
    ensures Sound(FullPass(script, st, p))
  {
    PassValid(script, st.(dispatching := true), st.chain, p);
  }

  /** Running a queued insertion keeps the invariant. */
  lemma InsertRunSound<P>(st: State<P>, c: CellId)
    requires Sound(st) && st.pending != [] && st.pending[0] == InsertRun(c)
    ensures Sound(st.(pending := st.pending[1..], chain := Inserted(st.chain, st.cells, c)))
  {
    var s := st.(pending := st.pending[1..]);
    assert forall i :: 0 <= i < |s.pending| ==> s.pending[i] == st.pending[i + 1];
    assert st.pending[0].cell in st.cells;
    InsertedDistinct(s.chain, s.cells, c);
    InsertedContents(s.chain, s.cells, c);
    assert Members(Inserted(s.chain, s.cells, c)) == Members(st.chain) + {c};
  }

  /** Running a queued removal keeps the invariant. */
  lemma RemoveRunSound<P>(st: State<P>, c: CellId)
    requires Sound(st) && st.pending != [] && st.pending[0] == RemoveRun(c)
    ensures Sound(st.(pending := st.pending[1..], chain := Removed(st.chain, c)))
  {
    var s := st.(pending := st.pending[1..]);
    assert forall i :: 0 <= i < |s.pending| ==> s.pending[i] == st.pending[i + 1];
    RemovedMembers(s.chain, c);
    assert Members(Removed(s.chain, c)) == Members(st.chain) - {c};
  }

  /** Running a queued `removeAll` keeps the invariant. */
  lemma RemoveAllRunSound<P>(st: State<P>, l: Listener)
    requires Sound(st) && st.pending != [] && st.pending[0] == RemoveAllRun(l)
    ensures Sound(st.(pending := st.pending[1..], chain := RemovedAll(st.chain, st.cells, l)))
  {
    var s := st.(pending := st.pending[1..]);
    assert forall i :: 0 <= i < |s.pending| ==> s.pending[i] == st.pending[i + 1];
    RemovedAllKeepsOrder(s.chain, s.cells, l);
    RemovedAllMembers(s.chain, s.cells, l);
    QueuedMono(Members(st.chain), Members(RemovedAll(s.chain, s.cells, l)), s.pending);
  }

  /** Taking a queued notification off the queue keeps the invariant. */
  lemma NotifyRunSound<P>(st: State<P>)
    requires Sound(st) && st.pending != [] && st.pending[0].NotifyRun?
    ensures Sound(st.(pending := st.pending[1..]))
  {
    var s := st.(pending := st.pending[1..]);
    assert forall i :: 0 <= i < |s.pending| ==> s.pending[i] == st.pending[i + 1];
  }

  lemma DrainStepSound<P>(script: (nat, P) -> seq<Action<P>>, st: State<P>, fuel: nat)
    requires Sound(st) && st.pending != []
    ensures Sound(DrainStep(script, st, fuel).0)
  {
    var s := st.(pending := st.pending[1..]);
    match st.pending[0]
    case InsertRun(c) => InsertRunSound(st, c);
    case RemoveRun(c) => RemoveRunSound(st, c);
    case RemoveAllRun(l) => RemoveAllRunSound(st, l);
    case NotifyRun(p) =>
      NotifyRunSound(st);
      if fuel > 0 {
        FullPassSound(script, s, p);
      }
  }

  lemma {:induction false} DrainSound<P>(script: (nat, P) -> seq<Action<P>>, st: State<P>, fuel: nat)
    requires Sound(st)
    ensures Sound(Drain(script, st, fuel))
    decreases fuel, |st.pending|
  {
    if st.pending != [] {
      DrainStepSound(script, st, fuel);
      var (s, f) := DrainStep(script, st, fuel);
      DrainSound(script, s, f);
    }
  }

  /** `notify` keeps the reactor invariant, and from rest it returns to rest with nothing queued. */
  lemma NotifyValid<P>(script: (nat, P) -> seq<Action<P>>, st: State<P>, p: P, fuel: nat)
    requires Valid(st)
    ensures Valid(Notify(script, st, p, fuel))
    ensures !st.dispatching ==> !Notify(script, st, p, fuel).dispatching && Notify(script, st, p, fuel).pending == []
  {
    if st.dispatching {
      ApplyValid(st, Emit(p));
    } else {
      FullPassSound(script, st, p);
      DrainSound(script, FullPass(script, st, p), fuel);
    }
  }

  /** Listener code run directly keeps the reactor invariant. */
  lemma {:induction false} DirectValid<P>(script: (nat, P) -> seq<Action<P>>, st: State<P>, acts: seq<Action<P>>, fuel: nat)
    requires Valid(st)
    ensures Valid(Direct(script, st, acts, fuel).0)
    ensures Direct(script, st, acts, fuel).0.dispatching == st.dispatching
    decreases |acts|
  {
    if acts != [] {
      var (st1, e) :=
        match acts[0]
        case Emit(p) => var n := Notify(script, st, p, fuel); (n, Thrown(st, n))
        case _ => Apply(st, acts[0]);
      match acts[0] {
        case Emit(p) => NotifyValid(script, st, p, fuel);
        case _ => ApplyValid(st, acts[0]);
      }
      if e.None? {
        DirectValid(script, st1, acts[1..], fuel);
      }
    }
  }

  /** Listener code run directly only adds to the log and lets cells evolve as the engine does. */
  lemma {:induction false} DirectEvolves<P>(script: (nat, P) -> seq<Action<P>>, st: State<P>, acts: seq<Action<P>>, fuel: nat)
    requires IdsBelow(st)
    ensures var r := Direct(script, st, acts, fuel).0;
      st.log <= r.log && IdsBelow(r) && CellsEvolve(st.cells, r.cells)
    decreases |acts|
  {
    if acts != [] {
      var (st1, e) :=
        match acts[0]
        case Emit(p) => var n := Notify(script, st, p, fuel); (n, Thrown(st, n))
        case _ => Apply(st, acts[0]);
      if e.None? {
        DirectEvolves(script, st1, acts[1..], fuel);
      }
    }
  }

  // ---------------------------------------------------------------------
  // What a pass delivers
  // ---------------------------------------------------------------------

  /** How many deliveries in `log` went to cell `c`. */
  function Count<P>(log: seq<Delivery<P>>, c: CellId): (n: nat)
    ensures n <= |log|
  {
    if log == [] then 0 else (if log[0].cell == c then 1 else 0) + Count(log[1..], c)
  }

  lemma {:induction false} CountAppend<P>(a: seq<Delivery<P>>, b: seq<Delivery<P>>, c: CellId)
    ensures Count(a + b, c) == Count(a, c) + Count(b, c)
  {
    if a == [] {
      assert a + b == b;
    } else {
      assert (a + b)[0] == a[0];
      assert (a + b)[1..] == a[1..] + b;
      CountAppend(a[1..], b, c);
    }
  }

  lemma {:induction false} CountNone<P>(log: seq<Delivery<P>>, c: CellId)
    requires forall d :: d in log ==> d.cell != c
    ensures Count(log, c) == 0
  {
    if log != [] {
      CountNone(log[1..], c);
    }
  }

  /** The deliveries made between two states of a reactor whose log only grew. */
  function Fresh<P>(before: State<P>, after: State<P>): seq<Delivery<P>>
    requires before.log <= after.log
  {
    after.log[|before.log|..]
  }

  /** The deliveries between three successive states are those of the first stretch followed by those of the second. */
  lemma FreshSplit<P>(a: State<P>, b: State<P>, c: State<P>)
    requires a.log <= b.log && b.log <= c.log
    ensures Fresh(a, c) == Fresh(a, b) + Fresh(b, c)
  {
    var x, y, z := Fresh(a, c), Fresh(a, b), Fresh(b, c);
    assert |x| == |y| + |z|;
    forall i | 0 <= i < |x| ensures x[i] == (y + z)[i] {
      if i < |y| {
        assert x[i] == c.log[|a.log| + i] == b.log[|a.log| + i];
      } else {
        assert x[i] == c.log[|a.log| + i] == z[i - |y|];
      }
    }
  }

  /** Every delivery of a pass goes to a snapshot cell and carries the payload. */
  lemma {:induction false} PassScope<P>(script: (nat, P) -> seq<Action<P>>, st: State<P>, snap: seq<CellId>, p: P)
    ensures var r := Pass(script, st, snap, p);
      forall d :: d in Fresh(st, r) ==> d.cell in snap && d.payload == p
    decreases |snap|
  {
    var r := Pass(script, st, snap, p);
    if snap != [] {
      var v := Visit(script, st, snap[0], p);
      assert r == Pass(script, v, snap[1..], p);
      PassScope(script, v, snap[1..], p);
      FreshSplit(st, v, r);
    }
  }

  /** The deliveries of a pass are those of its first visit followed by those of the rest. */
  lemma PassSplit<P>(script: (nat, P) -> seq<Action<P>>, st: State<P>, snap: seq<CellId>, p: P)
    requires snap != []
    ensures var v := Visit(script, st, snap[0], p); var r := Pass(script, st, snap, p);
      && r == Pass(script, v, snap[1..], p)
      && Fresh(st, r) == Fresh(st, v) + Fresh(v, r)
  {
    var v := Visit(script, st, snap[0], p);
    FreshSplit(st, v, Pass(script, v, snap[1..], p));
  }

  /** The first visit of a pass delivers to its own cell only, once at most, and once when it is open. */
  lemma VisitCount<P>(script: (nat, P) -> seq<Action<P>>, st: State<P>, c0: CellId, p: P, c: CellId)
    ensures var v := Visit(script, st, c0, p);
      && Count(Fresh(st, v), c) == (if c == c0 && ListenerOf(st.cells, c0).Slot? then 1 else 0)
  {
  }

  /** The rest of a pass delivers nothing to a cell that is not in the rest of the snapshot. */
  lemma RestSkips<P>(script: (nat, P) -> seq<Action<P>>, v: State<P>, rest: seq<CellId>, p: P, c: CellId)
    requires c !in rest
    ensures Count(Fresh(v, Pass(script, v, rest, p)), c) == 0
  {
    PassScope(script, v, rest, p);
    CountNone(Fresh(v, Pass(script, v, rest, p)), c);
  }

  /** A snapshot cell is invoked at most once in a pass. */
  lemma {:induction false} PassCountAtMost<P>(script: (nat, P) -> seq<Action<P>>, st: State<P>, snap: seq<CellId>, p: P, c: CellId)
    requires Distinct(snap) && c in snap
    ensures Count(Fresh(st, Pass(script, st, snap, p)), c) <= 1
    decreases |snap|
  {
    var r := Pass(script, st, snap, p);
    var v := Visit(script, st, snap[0], p);
    PassSplit(script, st, snap, p);
    VisitCount(script, st, snap[0], p, c);
    CountAppend(Fresh(st, v), Fresh(v, r), c);
    if snap[0] == c {
      assert c !in snap[1..];
      RestSkips(script, v, snap[1..], p, c);
    } else {
      assert Distinct(snap[1..]);
      PassCountAtMost(script, v, snap[1..], p, c);
    }
  }

  /** A snapshot cell whose listener is still real after the pass was invoked in it. */
  lemma {:induction false} PassCountOnce<P>(script: (nat, P) -> seq<Action<P>>, st: State<P>, snap: seq<CellId>, p: P, c: CellId)
    requires IdsBelow(st) && c in st.cells && c in snap
    requires ListenerOf(Pass(script, st, snap, p).cells, c).Slot?
    ensures Count(Fresh(st, Pass(script, st, snap, p)), c) >= 1
    decreases |snap|
  {
    var r := Pass(script, st, snap, p);
    var v := Visit(script, st, snap[0], p);
    PassSplit(script, st, snap, p);
    VisitCount(script, st, snap[0], p, c);
    CountAppend(Fresh(st, v), Fresh(v, r), c);
    if snap[0] != c {
      PassCountOnce(script, v, snap[1..], p, c);
    }
  }

  lemma PassCountAt<P>(script: (nat, P) -> seq<Action<P>>, st: State<P>, snap: seq<CellId>, p: P, c: CellId)
    requires IdsBelow(st)
    requires Distinct(snap) && (forall x :: x in snap ==> x in st.cells) && c in snap
    ensures var r := Pass(script, st, snap, p);
      && Count(Fresh(st, r), c) <= 1
      && (ListenerOf(r.cells, c).Slot? ==> Count(Fresh(st, r), c) == 1)
  {
    PassCountAtMost(script, st, snap, p, c);
    if ListenerOf(Pass(script, st, snap, p).cells, c).Slot? {
      PassCountOnce(script, st, snap, p, c);
    }
  }

  /**
   * One pass over a duplicate-free snapshot, whatever the listeners do: no
   * cell is invoked twice, and every cell whose listener is still real at
   * the end was invoked exactly once, so neither a throwing listener nor a
   * `removeConnection` issued during the pass cuts the pass short.
   */
  lemma PassDeliveries<P>(script: (nat, P) -> seq<Action<P>>, st: State<P>, snap: seq<CellId>, p: P)
    requires IdsBelow(st)
    requires Distinct(snap) && forall c :: c in snap ==> c in st.cells
    ensures var r := Pass(script, st, snap, p);
      && (forall c :: c in snap ==> Count(Fresh(st, r), c) <= 1)
      && (forall c :: c in snap && ListenerOf(r.cells, c).Slot? ==> Count(Fresh(st, r), c) == 1)
  {
    forall c | c in snap
      ensures var r := Pass(script, st, snap, p);
        && Count(Fresh(st, r), c) <= 1
        && (ListenerOf(r.cells, c).Slot? ==> Count(Fresh(st, r), c) == 1)
    {
      PassCountAt(script, st, snap, p, c);
    }
  }

  /** A cell holding the placeholder listener receives nothing during a pass. */
  lemma {:induction false} PassSilent<P>(script: (nat, P) -> seq<Action<P>>, st: State<P>, snap: seq<CellId>, p: P, c: CellId)
    requires IdsBelow(st) && ListenerOf(st.cells, c) == Noop && c in st.cells
    ensures Count(Fresh(st, Pass(script, st, snap, p)), c) == 0
    decreases |snap|
  {
    var r := Pass(script, st, snap, p);
    if snap == [] {
      assert Fresh(st, r) == [];
    } else {
      var v := Visit(script, st, snap[0], p);
      PassSilent(script, v, snap[1..], p, c);
      FreshSplit(st, v, r);
      CountAppend(Fresh(st, v), Fresh(v, r), c);
      CountNone(Fresh(st, v), c);
    }
  }

  /** ... and nothing while the deferred runs drain, queued notifications included. */
  lemma DrainStepSilent<P>(script: (nat, P) -> seq<Action<P>>, st: State<P>, fuel: nat, c: CellId)
    requires IdsBelow(st) && ListenerOf(st.cells, c) == Noop && c in st.cells && st.pending != []
    ensures Count(Fresh(st, DrainStep(script, st, fuel).0), c) == 0
  {
    var s := st.(pending := st.pending[1..]);
    var r := DrainStep(script, st, fuel).0;
    if st.pending[0].NotifyRun? && fuel > 0 {
      var q := st.pending[0].payload;
      PassSilent(script, s.(dispatching := true), s.chain, q, c);
      assert Fresh(st, r) == Fresh(s.(dispatching := true), Pass(script, s.(dispatching := true), s.chain, q));
    } else {
      assert Fresh(st, r) == [];
    }
  }

  lemma {:induction false} DrainSilent<P>(script: (nat, P) -> seq<Action<P>>, st: State<P>, fuel: nat, c: CellId)
    requires IdsBelow(st) && ListenerOf(st.cells, c) == Noop && c in st.cells
    ensures Count(Fresh(st, Drain(script, st, fuel)), c) == 0
    decreases fuel, |st.pending|
  {
    var r := Drain(script, st, fuel);
    if st.pending == [] {
      assert Fresh(st, r) == [];
    } else {
      var (s, f) := DrainStep(script, st, fuel);
      DrainStepSilent(script, st, fuel, c);
      DrainSilent(script, s, f, c);
      FreshSplit(st, s, r);
      CountAppend(Fresh(st, s), Fresh(s, r), c);
    }
  }

  /** The deliveries of a full pass are those of the pass over the chain with the sentinel set. */
  lemma FullPassFresh<P>(script: (nat, P) -> seq<Action<P>>, st: State<P>, p: P)
    ensures var s1 := st.(dispatching := true);
      Fresh(st, FullPass(script, st, p)) == Fresh(s1, Pass(script, s1, st.chain, p))
  {
  }

  /** The deliveries of a `notify` at rest are those of its pass followed by those of the drain. */
  lemma NotifyFresh<P>(script: (nat, P) -> seq<Action<P>>, st: State<P>, p: P, fuel: nat)
    requires !st.dispatching
    ensures var f := FullPass(script, st, p);
      Fresh(st, Notify(script, st, p, fuel)) == Fresh(st, f) + Fresh(f, Drain(script, f, fuel))
  {
  }

  /**
   * A closed cell (its listener swapped for the placeholder) is never
   * invoked again: a `notify` gives it nothing, in its own pass or in any
   * queued one.
   */
  lemma ClosedCellSilent<P>(script: (nat, P) -> seq<Action<P>>, st: State<P>, p: P, fuel: nat, c: CellId)
    requires Valid(st) && c in st.cells && !st.cells[c].owned
    ensures Count(Fresh(st, Notify(script, st, p, fuel)), c) == 0
  {
    var r := Notify(script, st, p, fuel);
    if st.dispatching {
      assert Fresh(st, r) == [];
    } else {
      var f := FullPass(script, st, p);
      PassSilent(script, st.(dispatching := true), st.chain, p, c);
      FullPassFresh(script, st, p);
      DrainSilent(script, f, fuel, c);
      NotifyFresh(script, st, p, fuel);
      CountAppend(Fresh(st, f), Fresh(f, Drain(script, f, fuel)), c);
    }
  }

  /** A one-shot cell in the snapshot is closed by the end of the pass. */
  lemma {:induction false} PassClosesOneShot<P>(script: (nat, P) -> seq<Action<P>>, st: State<P>, snap: seq<CellId>, p: P, c: CellId)
    requires Valid(st) && st.dispatching && c in snap && c in st.cells && st.cells[c].oneShot
    ensures var r := Pass(script, st, snap, p); c in r.cells && r.cells[c].listener == Noop
    decreases |snap|
  {
    var v := Visit(script, st, snap[0], p);
    VisitValid(script, st, snap[0], p);
    if snap[0] != c {
      PassClosesOneShot(script, v, snap[1..], p, c);
    }
  }

  /**
   * A one-shot connection fires at most once per `notify`: once in the
   * pass, and never in the notifications queued during it.
   */
  lemma OneShotAtMostOnce<P>(script: (nat, P) -> seq<Action<P>>, st: State<P>, p: P, fuel: nat, c: CellId)
    requires Valid(st) && !st.dispatching && c in st.chain && st.cells[c].oneShot
    ensures Count(Fresh(st, Notify(script, st, p, fuel)), c) <= 1
  {
    var s1 := st.(dispatching := true);
    var pass := Pass(script, s1, st.chain, p);
    PassDeliveries(script, s1, st.chain, p);
    PassClosesOneShot(script, s1, st.chain, p, c);
    PassValid(script, s1, st.chain, p);
    var f := FullPass(script, st, p);
    DrainSilent(script, f, fuel, c);
    FullPassFresh(script, st, p);
    NotifyFresh(script, st, p, fuel);
    CountAppend(Fresh(st, f), Fresh(f, Drain(script, f, fuel)), c);
  }

  /**
   * A connection made during a pass is not notified in that pass: the
   * pass only reaches cells that existed when it started.
   */
  lemma ConnectedDuringPassSilent<P>(script: (nat, P) -> seq<Action<P>>, st: State<P>, p: P, c: CellId)
    requires Valid(st) && !st.dispatching && c >= st.nextId
    ensures Count(Fresh(st, FullPass(script, st, p)), c) == 0
  {
    var s1 := st.(dispatching := true);
    PassScope(script, s1, st.chain, p);
    var pass := Pass(script, s1, st.chain, p);
    assert Fresh(st, FullPass(script, st, p)) == Fresh(s1, pass);
    assert c !in st.chain;
    CountNone(Fresh(s1, pass), c);
  }
}
