/**
 * `Cons.atPrio` during a pass, at the level of the `next` links.
 *
 * As written, `atPrio` queues the removal and re-insertion of its cell but
 * clears the cell's `next` field at once. The dispatch loop of
 * `Reactor.notify` follows that field to the next cell, so the cells after
 * it are skipped in the running pass; and the queued `remove`, finding the
 * cell at the head of the chain, returns its now-null `next` as the new
 * chain, so those cells are dropped for good while still open.
 *
 * The functions below transcribe `Cons.insert` and `Cons.remove` as they
 * are written, over an explicit map of `next` fields; `Walk` follows the
 * links as the dispatch loop does. The corrected behaviour is the one the
 * rest of the model uses (`Engine.AtPrio`, `Cons.Chain.Insert`).
 */
module Findings {
  import opened Common
  import opened Cons
  import opened Engine

  /**
   * The cells reached from `from` by following links, as the dispatch loop
   * does; `fuel` bounds the walk, since nothing in the links alone
   * rules out a cycle.
   */
  function Walk(next: Links, from: Option<CellId>, fuel: nat): (r: seq<CellId>)
    ensures |r| <= fuel
    ensures from.Some? && fuel > 0 ==> r != [] && r[0] == from.value
    decreases fuel
  {
    if fuel == 0 || from.None? then [] else [from.value] + Walk(next, LinkOf(next, from.value), fuel - 1)
  }

  /** Following well-formed links from the head walks exactly the chain. */
  lemma {:induction false} WalkLinked(head: Option<CellId>, next: Links, m: seq<CellId>)
    requires LinkedAs(head, next, m)
    ensures Walk(next, head, |m|) == m
    decreases |m|
  {
    if m != [] {
      LinkedPopFront(next, m);
      WalkLinked(LinkOf(next, m[0]), next, m[1..]);
    }
  }

  /** The loop of `Cons.remove` behind the head, as written. */
  function UnlinkAfter(next: Links, cycle: CellId, c: CellId, fuel: nat): (r: Links)
    ensures forall x :: LinkOf(r, x) != LinkOf(next, x) ==> LinkOf(r, x) == LinkOf(next, c)
    decreases fuel
  {
    if fuel == 0 then next
    else match LinkOf(next, cycle)
      case None => next
      case Some(n) => if n == c then next[cycle := LinkOf(next, c)] else UnlinkAfter(next, n, c, fuel - 1)
  }

  /** `Cons.remove(head, c)` as written: the new head and the new links. */
  function RemoveAsWritten(head: Option<CellId>, next: Links, c: CellId, fuel: nat): (r: (Option<CellId>, Links))
    ensures head == Some(c) ==> r == (LinkOf(next, c), next)
  {
    if head.None? then (head, next)
    else if head.value == c then (LinkOf(next, c), next)
    else (head, UnlinkAfter(next, head.value, c, fuel))
  }

  /** The loop of `Cons.insert` behind the head, as written. */
  function LinkAfter(next: Links, cycle: CellId, cells: Cells, c: CellId, fuel: nat): (r: Links)
    ensures forall x :: LinkOf(r, x) != LinkOf(next, x) ==> x == c || LinkOf(r, x) == Some(c)
    decreases fuel
  {
    if fuel == 0 then next
    else match LinkOf(next, cycle)
      case None => next[cycle := Some(c)]
      case Some(n) =>
        if Prio(cells, c) > Prio(cells, n) then next[c := Some(n)][cycle := Some(c)]
        else LinkAfter(next, n, cells, c, fuel - 1)
  }

  /**
   * `Cons.insert(head, c)` as written. When `c` becomes the only cell it is
   * returned as the head with its own link left as it was.
   */
  function InsertAsWritten(head: Option<CellId>, next: Links, cells: Cells, c: CellId, fuel: nat): (r: (Option<CellId>, Links))
    ensures head.None? ==> r == (Some(c), next)
    ensures r.0 == head || r.0 == Some(c)
    ensures forall x :: LinkOf(r.1, x) != LinkOf(next, x) ==> x == c || LinkOf(r.1, x) == Some(c)
  {
    if head.None? then (Some(c), next)
    else if Prio(cells, c) > Prio(cells, head.value) then (Some(c), next[c := head])
    else (head, LinkAfter(next, head.value, cells, c, fuel))
  }

  /** The links right after an as-written `atPrio` on `c` during a pass: `next = null`. */
  function AtPrioLinksAsWritten(next: Links, c: CellId): (r: Links)
    ensures LinkOf(r, c) == None
    ensures forall x :: x != c ==> LinkOf(r, x) == LinkOf(next, x)
  {
    next[c := None]
  }

  // ---------------------------------------------------------------------
  // The input that shows it: cell 0 (priority 5) then cell 1 (priority 3);
  // the listener of cell 0 moves its own cell to priority 0 during a pass.
  // ---------------------------------------------------------------------

  function Before(): Cells { map[0 := Cell(Slot(1), 5, false, true), 1 := Cell(Slot(2), 3, false, true)] }
  function Moved(): Cells { map[0 := Cell(Slot(1), 0, false, true), 1 := Cell(Slot(2), 3, false, true)] }
  function Links01(): Links { map[0 := Some(1), 1 := None] }

  /** The listener of slot 1 calls `atPrio(0)` on cell 0; every other listener does nothing. */
  function Reprioritize(slot: nat, v: int): seq<Action<int>> {
    if slot == 1 then [ChangePrio(0, 0)] else []
  }

  /**
   * As written: after cell 0's listener has run, the dispatch loop finds no
   * next cell, so cell 1 is skipped; and the queued remove-then-insert of
   * cell 0 leaves a chain of cell 0 alone, so open cell 1 is lost.
   */
  lemma AtPrioDuringPassDropsCell()
    ensures Walk(Links01(), Some(0), 2) == [0, 1]
    ensures var next1 := AtPrioLinksAsWritten(Links01(), 0);
      && [0] + Walk(next1, LinkOf(next1, 0), 2) == [0]
      && var (h2, n2) := RemoveAsWritten(Some(0), next1, 0, 2);
         var (h3, n3) := InsertAsWritten(h2, n2, Moved(), 0, 2);
         Walk(n3, h3, 3) == [0] && Moved()[1].owned
  {
    var next1 := AtPrioLinksAsWritten(Links01(), 0);
    assert LinkOf(next1, 0) == None;
    var (h2, n2) := RemoveAsWritten(Some(0), next1, 0, 2);
    assert h2 == None;
    var (h3, n3) := InsertAsWritten(h2, n2, Moved(), 0, 2);
    assert h3 == Some(0) && LinkOf(n3, 0) == None;
    assert Walk(n3, None, 2) == [];
  }

  // ---------------------------------------------------------------------
  // The same input under the corrected engine.
  // ---------------------------------------------------------------------

  function Start(): State<int> { State([0, 1], Before(), false, [], 2, [], [], false) }
  function AfterFirst(): State<int> {
    State([0, 1], Moved(), true, [RemoveRun(0), InsertRun(0)], 2, [Delivery(0, 1, 7)], [], false)
  }
  function AfterBoth(): State<int> { AfterFirst().(log := [Delivery(0, 1, 7), Delivery(1, 2, 7)]) }

  lemma VisitFirst()
    ensures Visit(Reprioritize, Start().(dispatching := true), 0, 7) == AfterFirst()
  {
    var d1 := Start().(dispatching := true, log := [Delivery(0, 1, 7)]);
    assert Apply(d1, ChangePrio(0, 0)).0 == AfterFirst();
    assert RunScript(d1, [ChangePrio(0, 0)]) == (AfterFirst(), None);
  }

  lemma FullPassBoth()
    ensures FullPass(Reprioritize, Start(), 7) == AfterBoth().(dispatching := false)
  {
    PassBoth();
  }

  lemma VisitSecond()
    ensures Visit(Reprioritize, AfterFirst(), 1, 7) == AfterBoth()
  {
    var s := AfterFirst().(log := [Delivery(0, 1, 7), Delivery(1, 2, 7)]);
    assert RunScript(s, []) == (s, None);
  }

  lemma PassBoth()
    ensures Pass(Reprioritize, Start().(dispatching := true), [0, 1], 7) == AfterBoth()
  {
    VisitFirst();
    VisitSecond();
    PassPair(Reprioritize, Start().(dispatching := true), 0, 1, 7);
  }

  lemma DrainBoth()
    ensures Drain(Reprioritize, AfterBoth().(dispatching := false), 0)
         == AfterBoth().(dispatching := false, pending := [], chain := [1, 0])
  {
    var f := AfterBoth().(dispatching := false);
    var g := DrainStep(Reprioritize, f, 0).0;
    assert g == f.(pending := [InsertRun(0)], chain := [1]);
    assert Inserted([1], Moved(), 0) == [1, 0];
    var h := DrainStep(Reprioritize, g, 0).0;
    assert h == g.(pending := [], chain := [1, 0]);
  }

  /**
   * Corrected: both cells are notified in the pass, and afterwards the
   * chain holds both, cell 0 now after cell 1 as its new priority says.
   */
  lemma AtPrioDuringPassKeepsCell()
    ensures var r := Notify(Reprioritize, Start(), 7, 0);
      && r.log == [Delivery(0, 1, 7), Delivery(1, 2, 7)]
      && r.chain == [1, 0] && NonIncreasing(r.chain, r.cells)
      && r.errors == [] && r.pending == []
  {
    NotifyBoth();
    MovedOrder();
  }

  lemma NotifyBoth()
    ensures Notify(Reprioritize, Start(), 7, 0)
         == AfterBoth().(dispatching := false, pending := [], chain := [1, 0])
  {
    FullPassBoth();
    DrainBoth();
  }

  lemma MovedOrder()
    ensures NonIncreasing([1, 0], Moved())
  {
    assert Prio(Moved(), 1) == 3 && Prio(Moved(), 0) == 0;
  }
}
