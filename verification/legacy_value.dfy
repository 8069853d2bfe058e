/**
 * The older value machinery: com/threerings/react/AbstractValue.java and the
 * chain helpers of react/AbstractConnection.java. Unlike the reactor of
 * reactor.dfy, this chain is kept in non-decreasing priority, a pass does
 * not catch what a listener throws, and connections made or closed during a
 * pass wait in `_toAdd` (a stack) and `_toRemove` (a set) until it ends.
 * The linked cells are a sequence of cell ids; each id maps to the cell's
 * listener (a slot number), priority and one-shot flag.
 */
module LegacyValues {
  import opened Common
  import opened ObjectsUtil
  import ValueHolders

  type CellId = nat

  /** A `Cons`: its listener (by slot number), that listener's `priority()`, and `oneShot`. */
  datatype LegacyCell = LegacyCell(slot: nat, priority: int, oneShot: bool)

  /** One `onChange(value, oldValue)` call, made to the listener of `cell`. */
  datatype Delivery<T> = Delivery(cell: CellId, slot: nat, value: Option<T>, oldValue: Option<T>)

  function CellOf(cells: map<CellId, LegacyCell>, c: CellId): LegacyCell {
    if c in cells then cells[c] else LegacyCell(0, 0, false)
  }

  function Prio(cells: map<CellId, LegacyCell>, c: CellId): int {
    CellOf(cells, c).priority
  }

  /** The order `insert` keeps: lower priorities first. */
  ghost predicate NonDecreasing(chain: seq<CellId>, cells: map<CellId, LegacyCell>) {
    forall i, j :: 0 <= i < j < |chain| ==> Prio(cells, chain[i]) <= Prio(cells, chain[j])
  }

  /** Cells are never dropped, and keep their listener and priority. */
  ghost predicate Evolves(a: map<CellId, LegacyCell>, b: map<CellId, LegacyCell>) {
    forall c :: c in a ==> c in b && b[c].slot == a[c].slot && b[c].priority == a[c].priority
  }

  lemma SortedFrame(chain: seq<CellId>, a: map<CellId, LegacyCell>, b: map<CellId, LegacyCell>)
    requires NonDecreasing(chain, a) && Evolves(a, b)
    requires forall i :: 0 <= i < |chain| ==> chain[i] in a
    ensures NonDecreasing(chain, b)
  {
    forall i, j | 0 <= i < j < |chain|
      ensures Prio(b, chain[i]) <= Prio(b, chain[j])
    {
      assert Prio(a, chain[i]) <= Prio(a, chain[j]);
    }
  }

  // ---------------------------------------------------------------------
  // AbstractConnection: the chain helpers.
  // ---------------------------------------------------------------------

  /**
   * `insert(head, cons)`: the new cell goes before the first cell of
   * strictly higher priority, so after every cell of equal or lower
   * priority.
   */
  function Insert(chain: seq<CellId>, cells: map<CellId, LegacyCell>, c: CellId): (r: seq<CellId>)
    ensures |r| == |chain| + 1
  {
    if chain == [] then [c]
    else if Prio(cells, chain[0]) > Prio(cells, c) then [c] + chain
    else [chain[0]] + Insert(chain[1..], cells, c)
  }

  /** `insert` adds the one cell and loses none. */
  lemma {:induction false} InsertMultiset(chain: seq<CellId>, cells: map<CellId, LegacyCell>, c: CellId)
    ensures multiset(Insert(chain, cells, c)) == multiset(chain) + multiset{c}
  {
    if chain != [] && Prio(cells, chain[0]) <= Prio(cells, c) {
      InsertMultiset(chain[1..], cells, c);
      assert chain == [chain[0]] + chain[1..];
    }
  }

  /** The index of the first cell whose priority exceeds `p`. */
  function FirstAbove(chain: seq<CellId>, cells: map<CellId, LegacyCell>, p: int): (k: nat)
    ensures k <= |chain|
  {
    if chain == [] then 0
    else if Prio(cells, chain[0]) > p then 0
    else 1 + FirstAbove(chain[1..], cells, p)
  }

  /** Every cell before that index has priority at most `p`, and the cell at it (if any) more. */
  lemma {:induction false} FirstAboveBounds(chain: seq<CellId>, cells: map<CellId, LegacyCell>, p: int)
    ensures var k := FirstAbove(chain, cells, p);
      && (forall i :: 0 <= i < k ==> Prio(cells, chain[i]) <= p)
      && (k < |chain| ==> Prio(cells, chain[k]) > p)
  {
    if chain != [] && Prio(cells, chain[0]) <= p {
      FirstAboveBounds(chain[1..], cells, p);
      assert forall i :: 1 <= i < |chain| ==> chain[i] == chain[1..][i - 1];
    }
  }

  /** Dropping the first cell of a non-decreasing chain leaves it non-decreasing. */
  lemma SortedTail(chain: seq<CellId>, cells: map<CellId, LegacyCell>)
    requires chain != [] && NonDecreasing(chain, cells)
    ensures NonDecreasing(chain[1..], cells)
    ensures forall x :: x in chain[1..] ==> Prio(cells, chain[0]) <= Prio(cells, x)
  {
    var rest := chain[1..];
    forall i, j | 0 <= i < j < |rest|
      ensures Prio(cells, rest[i]) <= Prio(cells, rest[j])
    {
      assert rest[i] == chain[i + 1] && rest[j] == chain[j + 1];
    }
    forall x | x in rest
      ensures Prio(cells, chain[0]) <= Prio(cells, x)
    {
      var m :| 0 <= m < |rest| && rest[m] == x;
      assert chain[m + 1] == x;
    }
  }

  /** A cell no higher than every cell of a non-decreasing chain can lead it. */
  lemma SortedCons(x: CellId, s: seq<CellId>, cells: map<CellId, LegacyCell>)
    requires NonDecreasing(s, cells)
    requires forall y :: y in s ==> Prio(cells, x) <= Prio(cells, y)
    ensures NonDecreasing([x] + s, cells)
  {
    var r := [x] + s;
    forall i, j | 0 <= i < j < |r|
      ensures Prio(cells, r[i]) <= Prio(cells, r[j])
    {
      assert r[j] == s[j - 1];
      if i > 0 {
        assert r[i] == s[i - 1];
      }
    }
  }

  /**
   * Where `insert` puts a cell: right before the first cell of higher
   * priority, so it follows every cell of equal priority (the reverse
   * priority direction of `Cons.insert`; ties are first come, first
   * served in both).
   */
  lemma {:induction false} InsertPlacement(chain: seq<CellId>, cells: map<CellId, LegacyCell>, c: CellId)
    ensures var k := FirstAbove(chain, cells, Prio(cells, c));
      Insert(chain, cells, c) == chain[..k] + [c] + chain[k..]
  {
    var p := Prio(cells, c);
    if chain == [] {
    } else if Prio(cells, chain[0]) > p {
      assert FirstAbove(chain, cells, p) == 0;
      assert chain[..0] + [c] + chain[0..] == [c] + chain;
    } else {
      var rest := chain[1..];
      var k := FirstAbove(rest, cells, p);
      assert FirstAbove(chain, cells, p) == k + 1;
      assert Insert(chain, cells, c) == chain[..k + 1] + [c] + chain[k + 1..] by {
        InsertPlacement(rest, cells, c);
        var front, back := rest[..k], rest[k..];
        assert chain[..k + 1] == [chain[0]] + front;
        assert chain[k + 1..] == back;
        assert Insert(chain, cells, c) == [chain[0]] + (front + [c] + back);
      }
    }
  }

  /** `insert` keeps a non-decreasing chain non-decreasing. */
  lemma {:induction false} InsertSorted(chain: seq<CellId>, cells: map<CellId, LegacyCell>, c: CellId)
    requires NonDecreasing(chain, cells)
    ensures NonDecreasing(Insert(chain, cells, c), cells)
  {
    if chain == [] {
    } else if Prio(cells, chain[0]) > Prio(cells, c) {
      SortedTail(chain, cells);
      assert chain == [chain[0]] + chain[1..];
      SortedCons(c, chain, cells);
    } else {
      var rest := chain[1..];
      SortedTail(chain, cells);
      InsertSorted(rest, cells, c);
      var tail := Insert(rest, cells, c);
      InsertMultiset(rest, cells, c);
      forall x | x in tail
        ensures Prio(cells, chain[0]) <= Prio(cells, x)
      {
        assert x in multiset(tail);
        if x != c {
          assert x in multiset(rest);
        }
      }
      SortedCons(chain[0], tail, cells);
    }
  }

  /** `insertAll` as a recursion: each queued cell in turn, from the top of the stack. */
  function InsertedAll(head: seq<CellId>, toAdd: seq<CellId>, cells: map<CellId, LegacyCell>): (r: seq<CellId>)
    ensures multiset(r) == multiset(head) + multiset(toAdd)
    decreases |toAdd|
  {
    if toAdd == [] then head
    else
      assert toAdd == [toAdd[0]] + toAdd[1..];
      InsertMultiset(head, cells, toAdd[0]);
      InsertedAll(Insert(head, cells, toAdd[0]), toAdd[1..], cells)
  }

  /** The union `insertAll` builds is as ordered as the chain it started from. */
  lemma {:induction false} InsertedAllSorted(head: seq<CellId>, toAdd: seq<CellId>, cells: map<CellId, LegacyCell>)
    requires NonDecreasing(head, cells)
    ensures NonDecreasing(InsertedAll(head, toAdd, cells), cells)
    decreases |toAdd|
  {
    if toAdd != [] {
      InsertSorted(head, cells, toAdd[0]);
      InsertedAllSorted(Insert(head, cells, toAdd[0]), toAdd[1..], cells);
    }
  }

  /** `insertAll(head, toAdd)`: pop each queued cell and insert it. */
  method InsertAll(head: seq<CellId>, toAdd: seq<CellId>, cells: map<CellId, LegacyCell>) returns (r: seq<CellId>)
    ensures r == InsertedAll(head, toAdd, cells)
    ensures multiset(r) == multiset(head) + multiset(toAdd)
  {
    r := head;
    var rest := toAdd;
    while rest != []
      invariant InsertedAll(r, rest, cells) == InsertedAll(head, toAdd, cells)
      decreases |rest|
    {
      r := Insert(r, cells, rest[0]);
      rest := rest[1..];
    }
  }

  /** The position of the first link to `c`. */
  function IndexOf(chain: seq<CellId>, c: CellId): (k: nat)
    requires c in chain
    ensures k < |chain| && chain[k] == c && c !in chain[..k]
  {
    if chain[0] == c then 0
    else
      var k := IndexOf(chain[1..], c);
      assert chain[..k + 1] == [chain[0]] + chain[1..][..k];
      k + 1
  }

  /** The chain without its first link to `c`. */
  function Unlinked(chain: seq<CellId>, c: CellId): (r: seq<CellId>)
    requires c in chain
    ensures multiset(r) == multiset(chain) - multiset{c}
  {
    var k := IndexOf(chain, c);
    assert chain == chain[..k] + [c] + chain[k + 1..];
    chain[..k] + chain[k + 1..]
  }

  /** Unlinking a cell keeps the rest in their order. */
  lemma UnlinkedSorted(chain: seq<CellId>, cells: map<CellId, LegacyCell>, c: CellId)
    requires c in chain && NonDecreasing(chain, cells)
    ensures NonDecreasing(Unlinked(chain, c), cells)
  {
    var k := IndexOf(chain, c);
    var r := Unlinked(chain, c);
    forall i, j | 0 <= i < j < |r|
      ensures Prio(cells, r[i]) <= Prio(cells, r[j])
    {
      var i' := if i < k then i else i + 1;
      var j' := if j < k then j else j + 1;
      assert r[i] == chain[i'] && r[j] == chain[j'];
    }
  }

  /**
   * `remove(head, cons)`: unlinks the first link to `cons` and keeps the
   * others in order. A cell that is not linked walks the loop off the end
   * of the chain: NullPointerException.
   */
  method Remove(head: seq<CellId>, c: CellId) returns (r: Result<seq<CellId>>)
    ensures c in head ==> r == Ok(Unlinked(head, c))
    ensures c !in head ==> r == Throws(NullPointer("null"))
  {
    if head != [] && head[0] == c {
      assert IndexOf(head, c) == 0;
      assert head[..0] + head[1..] == head[1..];
      return Ok(head[1..]);
    }
    if head == [] {
      return Throws(NullPointer("null"));
    }
    var prev := 0;
    while prev + 1 < |head| && head[prev + 1] != c
      invariant 0 <= prev < |head|
      invariant c !in head[..prev + 1]
    {
      assert head[..prev + 2] == head[..prev + 1] + [head[prev + 1]];
      prev := prev + 1;
    }
    if prev + 1 == |head| {
      assert head[..prev + 1] == head;
      return Throws(NullPointer("null"));
    }
    assert head[..prev + 2] == head[..prev + 1] + [c];
    assert IndexOf(head, c) == prev + 1;
    return Ok(head[..prev + 1] + head[prev + 2..]);
  }

  /** `removeAll(head, toRemove)`: drops every cell in the set, keeping the rest in order. */
  function RemoveAll(head: seq<CellId>, toRemove: set<CellId>): (r: seq<CellId>)
    ensures forall x :: x in r <==> x in head && x !in toRemove
    ensures |r| <= |head|
    ensures (forall i :: 0 <= i < |head| ==> head[i] !in toRemove) ==> r == head
  {
    if head == [] then []
    else
      assert head == [head[0]] + head[1..];
      if head[0] in toRemove then RemoveAll(head[1..], toRemove)
      else [head[0]] + RemoveAll(head[1..], toRemove)
  }

  /** What `removeAll` keeps stays in the order it was in. */
  lemma {:induction false} RemoveAllSorted(head: seq<CellId>, toRemove: set<CellId>, cells: map<CellId, LegacyCell>)
    requires NonDecreasing(head, cells)
    ensures NonDecreasing(RemoveAll(head, toRemove), cells)
  {
    if head != [] {
      SortedTail(head, cells);
      RemoveAllSorted(head[1..], toRemove, cells);
      if head[0] !in toRemove {
        SortedCons(head[0], RemoveAll(head[1..], toRemove), cells);
      }
    }
  }

  /** The set behind `_toRemove`, empty while it is null. */
  function Queued(toRemove: Option<set<CellId>>): set<CellId> {
    if toRemove.None? then {} else toRemove.value
  }

  /** `queueRemove(toRemove, cons)`: creates the set on first use, then adds the cell. */
  function QueueRemove(toRemove: Option<set<CellId>>, c: CellId): (r: set<CellId>)
    ensures forall x :: x in r <==> x == c || x in Queued(toRemove)
  {
    Queued(toRemove) + {c}
  }

  // ---------------------------------------------------------------------
  // AbstractValue: the state and its operations.
  // ---------------------------------------------------------------------

  /**
   * `_value`, the chain (`_listeners`; during a pass the field holds the
   * DISPATCHING sentinel and `chain` is the saved `lners`), whether a pass
   * is running, `_toAdd` (top of the stack first), `_toRemove`, the cells,
   * the next cell id, and the `onChange` calls made so far.
   */
  datatype LegacyState<T> = LegacyState(
    value: Option<T>, chain: seq<CellId>, dispatching: bool, toAdd: seq<CellId>,
    toRemove: Option<set<CellId>>, cells: map<CellId, LegacyCell>, nextId: nat, log: seq<Delivery<T>>)

  /** What a listener does from `onChange`. */
  datatype LegacyAction<T> =
    | ListenAct(slot: nat, priority: int)   // listen(listener)
    | DisconnectAct(cell: CellId)           // connection.disconnect()
    | OnceAct(cell: CellId)                 // connection.once()
    | UpdateAct(update: Option<T>)          // updateAndNotify on the same value
    | FailAct(failure: Exn)                 // the listener throws

  /**
   * Every cell id is below the next one; the chain and `_toAdd` hold known
   * cells; the chain is in non-decreasing priority; and outside a pass
   * nothing is queued.
   */
  ghost predicate ValidState<T>(st: LegacyState<T>) {
    && (forall c :: c in st.cells ==> c < st.nextId)
    && (forall i :: 0 <= i < |st.chain| ==> st.chain[i] in st.cells)
    && (forall i :: 0 <= i < |st.toAdd| ==> st.toAdd[i] in st.cells)
    && NonDecreasing(st.chain, st.cells)
    && (!st.dispatching ==> st.toAdd == [] && st.toRemove.None?)
  }

  /**
   * `listen(listener)`: a new cell; during a pass it is pushed on `_toAdd`,
   * otherwise inserted by priority.
   */
  function ListenSpec<T>(st: LegacyState<T>, slot: nat, priority: int): (LegacyState<T>, CellId) {
    var c := st.nextId;
    var cells := st.cells[c := LegacyCell(slot, priority, false)];
    var st1 := st.(cells := cells, nextId := c + 1);
    if st.dispatching then (st1.(toAdd := [c] + st.toAdd), c)
    else (st1.(chain := Insert(st.chain, cells, c)), c)
  }

  /**
   * `Cons.disconnect()`: during a pass the cell is queued on `_toRemove`;
   * otherwise it is unlinked, and a cell that is not linked throws
   * NullPointerException.
   */
  function DisconnectSpec<T>(st: LegacyState<T>, c: CellId): (LegacyState<T>, Option<Exn>) {
    if st.dispatching then (st.(toRemove := Some(QueueRemove(st.toRemove, c))), None)
    else if c in st.chain then (st.(chain := Unlinked(st.chain, c)), None)
    else (st, Some(NullPointer("null")))
  }

  /** `once()`: marks the cell one-shot. */
  function OnceSpec<T>(st: LegacyState<T>, c: CellId): LegacyState<T> {
    if c in st.cells then st.(cells := st.cells[c := st.cells[c].(oneShot := true)]) else st
  }

  /**
   * One listener action, taken during a pass. An `updateAndNotify` made
   * then stores its value and walks the DISPATCHING sentinel as if it were
   * the chain; the sentinel's listener is null, so it throws
   * NullPointerException.
   */
  function ApplyAction<T>(st: LegacyState<T>, a: LegacyAction<T>): (LegacyState<T>, Option<Exn>) {
    match a
    case ListenAct(slot, p) => (ListenSpec(st, slot, p).0, None)
    case DisconnectAct(c) => DisconnectSpec(st, c)
    case OnceAct(c) => (OnceSpec(st, c), None)
    case UpdateAct(v) => (st.(value := v), Some(NullPointer("null")))
    case FailAct(e) => (st, Some(e))
  }

  /** A listener's actions in order, cut short by the first exception. */
  function RunActions<T>(st: LegacyState<T>, acts: seq<LegacyAction<T>>): (LegacyState<T>, Option<Exn>)
    decreases |acts|
  {
    if acts == [] then (st, None)
    else
      var (s1, e) := ApplyAction(st, acts[0]);
      if e.Some? then (s1, e) else RunActions(s1, acts[1..])
  }

  /** What each listener does when called with `(value, oldValue)`, by slot. */
  type Script<!T> = (nat, Option<T>, Option<T>) -> seq<LegacyAction<T>>

  /**
   * The dispatch loop from the cells `snap` on: call each listener, then
   * disconnect a one-shot cell; an exception leaves the loop at once.
   */
  function PassFrom<T>(script: Script<T>, st: LegacyState<T>, snap: seq<CellId>, v: Option<T>, ov: Option<T>)
    : (LegacyState<T>, Option<Exn>)
    decreases |snap|
  {
    if snap == [] then (st, None)
    else
      var c := snap[0];
      var slot := CellOf(st.cells, c).slot;
      var (s1, e) := RunActions(st.(log := st.log + [Delivery(c, slot, v, ov)]), script(slot, v, ov));
      if e.Some? then (s1, e)
      else
        var s2 := if CellOf(s1.cells, c).oneShot then DisconnectSpec(s1, c).0 else s1;
        PassFrom(script, s2, snap[1..], v, ov)
  }

  /** After a pass: restore the chain, apply the queued removals, then the queued additions. */
  function Settle<T>(st: LegacyState<T>): LegacyState<T> {
    var s1 := st.(dispatching := false);
    var s2 := if s1.toRemove.Some? then s1.(chain := RemoveAll(s1.chain, s1.toRemove.value), toRemove := None) else s1;
    if s2.toAdd != [] then s2.(chain := InsertedAll(s2.chain, s2.toAdd, s2.cells), toAdd := []) else s2
  }

  /**
   * `updateAndNotify(v)`: stores `v`, then notifies every cell of the chain
   * with `(v, old)` and returns `old`. Called during a pass, it throws
   * NullPointerException (see `ApplyAction`). A listener's exception
   * propagates at once, skipping the restore, so the value stays
   * dispatching.
   */
  function UpdateSpec<T>(script: Script<T>, st: LegacyState<T>, v: Option<T>): (LegacyState<T>, Result<Option<T>>) {
    if st.dispatching then (st.(value := v), Throws(NullPointer("null")))
    else
      var (s1, e) := PassFrom(script, st.(value := v, dispatching := true), st.chain, v, st.value);
      if e.Some? then (s1, Throws(e.value)) else (Settle(s1), Ok(st.value))
  }

  // ---------------------------------------------------------------------
  // The invariant.
  // ---------------------------------------------------------------------

  lemma ListenValid<T>(st: LegacyState<T>, slot: nat, priority: int)
    requires ValidState(st)
    ensures var (r, c) := ListenSpec(st, slot, priority);
      ValidState(r) && Evolves(st.cells, r.cells) && c !in st.cells && c in r.cells
      && r.dispatching == st.dispatching && r.log == st.log && r.value == st.value
      && (st.dispatching ==> r.chain == st.chain)
  {
    var c := st.nextId;
    var cells := st.cells[c := LegacyCell(slot, priority, false)];
    SortedFrame(st.chain, st.cells, cells);
    if !st.dispatching {
      InsertValid(st.chain, cells, c);
    }
  }

  /** Inserting a known cell into a sorted chain of known cells keeps both. */
  lemma InsertValid(chain: seq<CellId>, cells: map<CellId, LegacyCell>, c: CellId)
    requires c in cells && NonDecreasing(chain, cells)
    requires forall i :: 0 <= i < |chain| ==> chain[i] in cells
    ensures var r := Insert(chain, cells, c);
      NonDecreasing(r, cells) && forall i :: 0 <= i < |r| ==> r[i] in cells
  {
    InsertSorted(chain, cells, c);
    InsertMultiset(chain, cells, c);
    var r := Insert(chain, cells, c);
    forall i | 0 <= i < |r|
      ensures r[i] in cells
    {
      assert r[i] in multiset(r);
      if r[i] != c {
        assert r[i] in multiset(chain);
      }
    }
  }

  lemma DisconnectValid<T>(st: LegacyState<T>, c: CellId)
    requires ValidState(st)
    ensures var (r, e) := DisconnectSpec(st, c);
      ValidState(r) && r.cells == st.cells && r.dispatching == st.dispatching && r.log == st.log && r.value == st.value
      && r.toAdd == st.toAdd && r.nextId == st.nextId
      && (st.dispatching ==> r.chain == st.chain && e.None?)
  {
    if !st.dispatching && c in st.chain {
      UnlinkedSorted(st.chain, st.cells, c);
      var r := Unlinked(st.chain, c);
      forall i | 0 <= i < |r|
        ensures r[i] in st.cells
      {
        assert r[i] in multiset(r);
      }
    }
  }

  lemma OnceValid<T>(st: LegacyState<T>, c: CellId)
    requires ValidState(st)
    ensures var r := OnceSpec(st, c);
      ValidState(r) && Evolves(st.cells, r.cells) && r.chain == st.chain && r.dispatching == st.dispatching
      && r.log == st.log && r.toAdd == st.toAdd && r.toRemove == st.toRemove && r.nextId == st.nextId
  {
    SortedFrame(st.chain, st.cells, OnceSpec(st, c).cells);
  }

  lemma {:induction false} RunValid<T>(st: LegacyState<T>, acts: seq<LegacyAction<T>>)
    requires ValidState(st) && st.dispatching
    ensures var (r, e) := RunActions(st, acts);
      ValidState(r) && Evolves(st.cells, r.cells) && r.chain == st.chain && r.dispatching && r.log == st.log
      && st.nextId <= r.nextId
    decreases |acts|
  {
    if acts != [] {
      var (s1, e) := ApplyAction(st, acts[0]);
      match acts[0] {
        case ListenAct(slot, p) => ListenValid(st, slot, p);
        case DisconnectAct(c) => DisconnectValid(st, c);
        case OnceAct(c) => OnceValid(st, c);
        case UpdateAct(v) =>
        case FailAct(x) =>
      }
      if e.None? {
        RunValid(s1, acts[1..]);
      }
    }
  }

  lemma {:induction false} PassValid<T>(script: Script<T>, st: LegacyState<T>, snap: seq<CellId>, v: Option<T>, ov: Option<T>)
    requires ValidState(st) && st.dispatching
    ensures var (r, e) := PassFrom(script, st, snap, v, ov);
      ValidState(r) && Evolves(st.cells, r.cells) && r.chain == st.chain && r.dispatching && st.log <= r.log
      && st.nextId <= r.nextId
    decreases |snap|
  {
    if snap != [] {
      var c := snap[0];
      var slot := CellOf(st.cells, c).slot;
      var s0 := st.(log := st.log + [Delivery(c, slot, v, ov)]);
      RunValid(s0, script(slot, v, ov));
      var (s1, e) := RunActions(s0, script(slot, v, ov));
      if e.None? {
        var s2 := if CellOf(s1.cells, c).oneShot then DisconnectSpec(s1, c).0 else s1;
        DisconnectValid(s1, c);
        PassValid(script, s2, snap[1..], v, ov);
      }
    }
  }

  lemma SettleValid<T>(st: LegacyState<T>)
    requires ValidState(st)
    ensures var r := Settle(st);
      ValidState(r) && !r.dispatching && r.cells == st.cells && r.log == st.log && r.value == st.value && r.nextId == st.nextId
  {
    var s1 := st.(dispatching := false);
    var s2 := if s1.toRemove.Some? then s1.(chain := RemoveAll(s1.chain, s1.toRemove.value), toRemove := None) else s1;
    if s1.toRemove.Some? {
      RemoveAllSorted(s1.chain, s1.toRemove.value, s1.cells);
    }
    assert forall i :: 0 <= i < |s2.chain| ==> s2.chain[i] in st.cells by {
      forall i | 0 <= i < |s2.chain|
        ensures s2.chain[i] in st.cells
      {
        assert s2.chain[i] in s2.chain;
      }
    }
    if s2.toAdd != [] {
      InsertedAllSorted(s2.chain, s2.toAdd, s2.cells);
      var r := InsertedAll(s2.chain, s2.toAdd, s2.cells);
      forall i | 0 <= i < |r|
        ensures r[i] in st.cells
      {
        assert r[i] in multiset(r);
      }
    }
  }

  /** `updateAndNotify` keeps the invariant, whether it returns or throws. */
  lemma UpdateValid<T>(script: Script<T>, st: LegacyState<T>, v: Option<T>)
    requires ValidState(st)
    ensures ValidState(UpdateSpec(script, st, v).0)
  {
    if !st.dispatching {
      var s0 := st.(value := v, dispatching := true);
      PassValid(script, s0, st.chain, v, st.value);
      var (s1, e) := PassFrom(script, s0, st.chain, v, st.value);
      if e.None? {
        SettleValid(s1);
      }
    }
  }

  // ---------------------------------------------------------------------
  // The value object.
  // ---------------------------------------------------------------------

  /** `com.threerings.react.AbstractValue`, with the listener chain of its `Cons` cells. */
  class LegacyValue<T(==)> {
    /** The `equals` of the held class. */
    const eq: (T, Option<T>) -> bool
    var value: Option<T>
    var chain: seq<CellId>
    var dispatching: bool
    var toAdd: seq<CellId>
    var toRemove: Option<set<CellId>>
    var cells: map<CellId, LegacyCell>
    var nextId: nat
    var log: seq<Delivery<T>>

    function Model(): LegacyState<T>
      reads this
    {
      LegacyState(value, chain, dispatching, toAdd, toRemove, cells, nextId, log)
    }

    ghost predicate Valid()
      reads this
    {
      ValidState(Model())
    }

    /** A value holding `v`, with no listeners. */
    constructor (v: Option<T>, eq: (T, Option<T>) -> bool)
      ensures Valid() && this.eq == eq && Model() == LegacyState(v, [], false, [], None, map[], 0, [])
    {
      this.eq := eq;
      value := v;
      chain := [];
      dispatching := false;
      toAdd := [];
      toRemove := None;
      cells := map[];
      nextId := 0;
      log := [];
    }

    /** `get()`. */
    function Get(): Option<T>
      reads this
    {
      value
    }

    /** `listen(listener)`: the new connection. */
    method Listen(slot: nat, priority: int) returns (c: CellId)
      requires Valid()
      modifies this
      ensures Valid()
      ensures (Model(), c) == ListenSpec(old(Model()), slot, priority)
    {
      ListenValid(Model(), slot, priority);
      ghost var spec := ListenSpec(Model(), slot, priority);
      c := nextId;
      cells := cells[c := LegacyCell(slot, priority, false)];
      nextId := c + 1;
      if dispatching {
        toAdd := [c] + toAdd;
      } else {
        chain := Insert(chain, cells, c);
      }
    }

    /** `Cons.disconnect()` on the connection `c`. */
    method Disconnect(c: CellId) returns (e: Option<Exn>)
      requires Valid()
      modifies this
      ensures Valid()
      ensures (Model(), e) == DisconnectSpec(old(Model()), c)
    {
      DisconnectValid(Model(), c);
      if dispatching {
        toRemove := Some(QueueRemove(toRemove, c));
        return None;
      }
      var r := Remove(chain, c);
      if r.Throws? {
        return Some(r.exn);
      }
      chain := r.value;
      return None;
    }

    /** `once()` on the connection `c`. */
    method Once(c: CellId)
      requires Valid()
      modifies this
      ensures Valid()
      ensures Model() == OnceSpec(old(Model()), c)
    {
      OnceValid(Model(), c);
      if c in cells {
        cells := cells[c := cells[c].(oneShot := true)];
      }
    }

    /** One listener's `onChange`, as the actions it takes, during a pass. */
    method RunListener(acts: seq<LegacyAction<T>>) returns (e: Option<Exn>)
      requires Valid() && dispatching
      modifies this
      ensures Valid()
      ensures (Model(), e) == RunActions(old(Model()), acts)
    {
      var i := 0;
      while i < |acts|
        invariant 0 <= i <= |acts| && Valid() && dispatching
        invariant RunActions(Model(), acts[i..]) == RunActions(old(Model()), acts)
      {
        assert acts[i..][0] == acts[i] && acts[i..][1..] == acts[i + 1..];
        match acts[i] {
          case ListenAct(slot, p) =>
            var _ := Listen(slot, p);
          case DisconnectAct(c) =>
            var _ := Disconnect(c);
          case OnceAct(c) =>
            Once(c);
          case UpdateAct(u) =>
            value := u;
            return Some(NullPointer("null"));
          case FailAct(x) =>
            return Some(x);
        }
        i := i + 1;
      }
      return None;
    }

    /**
     * The dispatch loop: call each listener of the saved chain `lners` with
     * `(v, ov)`, disconnecting one-shot cells after their call; a
     * listener's exception stops the loop and is handed back.
     */
    method Dispatch(lners: seq<CellId>, v: Option<T>, ov: Option<T>, script: Script<T>) returns (e: Option<Exn>)
      requires Valid() && dispatching && chain == lners
      modifies this
      ensures Valid()
      ensures (Model(), e) == PassFrom(script, old(Model()), lners, v, ov)
    {
      var i := 0;
      while i < |lners|
        invariant 0 <= i <= |lners| && Valid() && dispatching && chain == lners
        invariant PassFrom(script, Model(), lners[i..], v, ov) == PassFrom(script, old(Model()), lners, v, ov)
      {
        assert lners[i..][0] == lners[i] && lners[i..][1..] == lners[i + 1..];
        e := Call(lners[i], v, ov, script);
        if e.Some? {
          return;
        }
        i := i + 1;
      }
      return None;
    }

    /**
     * One step of the dispatch loop: log the call, run the listener of `c`,
     * and, unless it threw, disconnect `c` if it is one-shot.
     */
    method Call(c: CellId, v: Option<T>, ov: Option<T>, script: Script<T>) returns (e: Option<Exn>)
      requires Valid() && dispatching
      modifies this
      ensures Valid() && dispatching && chain == old(chain)
      ensures var slot := CellOf(old(cells), c).slot;
        var (s1, e1) := RunActions(old(Model()).(log := old(log) + [Delivery(c, slot, v, ov)]), script(slot, v, ov));
        && e == e1
        && Model() == if e1.Some? || !CellOf(s1.cells, c).oneShot then s1 else DisconnectSpec(s1, c).0
    {
      var slot := CellOf(cells, c).slot;
      log := log + [Delivery(c, slot, v, ov)];
      RunValid(Model(), script(slot, v, ov));
      e := RunListener(script(slot, v, ov));
      if e.None? && CellOf(cells, c).oneShot {
        var _ := Disconnect(c);
      }
    }

    /** After the loop: restore the chain, then apply the queued removals and additions. */
    method FinishPass()
      requires Valid()
      modifies this
      ensures Valid()
      ensures Model() == Settle(old(Model()))
    {
      ghost var st := Model();
      SettleValid(st);
      dispatching := false;
      if toRemove.Some? {
        chain := RemoveAll(chain, toRemove.value);
        toRemove := None;
      }
      ghost var s2 := Model();
      assert s2 == (if st.toRemove.Some? then st.(dispatching := false, chain := RemoveAll(st.chain, st.toRemove.value), toRemove := None) else st.(dispatching := false));
      if toAdd != [] {
        chain := InsertAll(chain, toAdd, cells);
        toAdd := [];
      }
      assert Model() == (if s2.toAdd != [] then s2.(chain := InsertedAll(s2.chain, s2.toAdd, s2.cells), toAdd := []) else s2);
    }

    /** `updateAndNotify(v)`. */
    method UpdateAndNotify(v: Option<T>, script: Script<T>) returns (r: Result<Option<T>>)
      requires Valid()
      modifies this
      ensures Valid()
      ensures (Model(), r) == UpdateSpec(script, old(Model()), v)
    {
      UpdateValid(script, Model(), v);
      var ov := value;
      value := v;
      if dispatching {
        return Throws(NullPointer("null"));
      }
      dispatching := true;
      var e := Dispatch(chain, v, ov, script);
      if e.Some? {
        return Throws(e.value);
      }
      FinishPass();
      return Ok(ov);
    }

    /**
     * `updateAndNotifyIf(v)`: a value equal to the held one (by its own
     * `equals`, null-safe) changes nothing and returns the argument, not
     * the held value; any other is `updateAndNotify(v)`.
     */
    method UpdateAndNotifyIf(v: Option<T>, script: Script<T>) returns (r: Result<Option<T>>)
      requires Valid()
      modifies this
      ensures Valid()
      ensures Equals(v, old(value), eq) ==> r == Ok(v) && Model() == old(Model())
      ensures !Equals(v, old(value), eq) ==> (Model(), r) == UpdateSpec(script, old(Model()), v)
    {
      if Equals(v, value, eq) {
        return Ok(v);
      }
      r := UpdateAndNotify(v, script);
    }
  }

  // ---------------------------------------------------------------------
  // What a pass does.
  // ---------------------------------------------------------------------

  /** Listeners that do nothing but listen. */
  ghost predicate Quiet<T(!new)>(script: Script<T>) {
    forall slot, v, ov :: script(slot, v, ov) == []
  }

  /** The calls a pass over `snap` makes, in chain order. */
  ghost function Deliveries<T>(snap: seq<CellId>, cells: map<CellId, LegacyCell>, v: Option<T>, ov: Option<T>): seq<Delivery<T>>
    decreases |snap|
  {
    if snap == [] then [] else [Delivery(snap[0], CellOf(cells, snap[0]).slot, v, ov)] + Deliveries(snap[1..], cells, v, ov)
  }

  lemma {:induction false} QuietPass<T(!new)>(script: Script<T>, st: LegacyState<T>, snap: seq<CellId>, v: Option<T>, ov: Option<T>)
    requires Quiet(script) && st.dispatching
    ensures var (r, e) := PassFrom(script, st, snap, v, ov);
      && e.None? && r.log == st.log + Deliveries(snap, st.cells, v, ov)
      && r.cells == st.cells && r.chain == st.chain && r.toAdd == st.toAdd && r.dispatching && r.value == st.value
      && (forall x :: x in Queued(r.toRemove) <==> x in Queued(st.toRemove) || (x in snap && CellOf(st.cells, x).oneShot))
    decreases |snap|
  {
    if snap != [] {
      var c := snap[0];
      var slot := CellOf(st.cells, c).slot;
      assert script(slot, v, ov) == [];
      var s1 := st.(log := st.log + [Delivery(c, slot, v, ov)]);
      var s2 := if CellOf(s1.cells, c).oneShot then DisconnectSpec(s1, c).0 else s1;
      QuietPass(script, s2, snap[1..], v, ov);
      assert snap == [c] + snap[1..];
    }
  }

  /**
   * A pass with listeners that only listen: the value is `v`, the old value
   * is returned, every cell of the chain is called once with `(v, old)` in
   * chain order, and afterwards exactly the one-shot cells have been
   * unlinked, the rest staying in non-decreasing priority.
   */
  lemma QuietUpdate<T(!new)>(script: Script<T>, st: LegacyState<T>, v: Option<T>)
    requires ValidState(st) && !st.dispatching && Quiet(script)
    ensures var (r, res) := UpdateSpec(script, st, v);
      && res == Ok(st.value) && r.value == v && !r.dispatching
      && r.log == st.log + Deliveries(st.chain, st.cells, v, st.value)
      && (forall x :: x in r.chain <==> x in st.chain && !CellOf(st.cells, x).oneShot)
      && NonDecreasing(r.chain, r.cells)
  {
    var s0 := st.(value := v, dispatching := true);
    QuietPass(script, s0, st.chain, v, st.value);
    UpdateValid(script, st, v);
  }

  lemma {:induction false} RunKeepsLog<T>(st: LegacyState<T>, acts: seq<LegacyAction<T>>)
    ensures RunActions(st, acts).0.log == st.log
    decreases |acts|
  {
    if acts != [] {
      var (s1, e) := ApplyAction(st, acts[0]);
      if e.None? {
        RunKeepsLog(s1, acts[1..]);
      }
    }
  }

  lemma {:induction false} PassLog<T>(script: Script<T>, st: LegacyState<T>, snap: seq<CellId>, v: Option<T>, ov: Option<T>)
    ensures var r := PassFrom(script, st, snap, v, ov).0;
      st.log <= r.log && forall i :: |st.log| <= i < |r.log| ==> r.log[i].cell in snap && r.log[i].value == v && r.log[i].oldValue == ov
    decreases |snap|
  {
    if snap != [] {
      var c := snap[0];
      var slot := CellOf(st.cells, c).slot;
      var s0 := st.(log := st.log + [Delivery(c, slot, v, ov)]);
      RunKeepsLog(s0, script(slot, v, ov));
      var (s1, e) := RunActions(s0, script(slot, v, ov));
      if e.None? {
        var s2 := if CellOf(s1.cells, c).oneShot then DisconnectSpec(s1, c).0 else s1;
        PassLog(script, s2, snap[1..], v, ov);
      }
    }
  }

  /**
   * Only the chain as it was when the update began is notified, with
   * `(v, old)`: a cell connected during the pass (its id is at least
   * `nextId`) is not called in it.
   */
  lemma UpdateNotifiesChainOnly<T>(script: Script<T>, st: LegacyState<T>, v: Option<T>)
    requires ValidState(st) && !st.dispatching
    ensures var r := UpdateSpec(script, st, v).0;
      st.log <= r.log
      && forall i :: |st.log| <= i < |r.log| ==>
           r.log[i].cell in st.chain && r.log[i].cell < st.nextId && r.log[i].value == v && r.log[i].oldValue == st.value
  {
    var s0 := st.(value := v, dispatching := true);
    PassLog(script, s0, st.chain, v, st.value);
    var (s1, e) := PassFrom(script, s0, st.chain, v, st.value);
    assert forall x :: x in st.chain ==> x < st.nextId;
  }

  /**
   * After a pass, the chain holds the cells it held that were not queued
   * for removal, plus every queued addition, in non-decreasing priority.
   */
  lemma SettleMembers<T>(st: LegacyState<T>)
    requires ValidState(st)
    ensures forall x :: x in Settle(st).chain <==> (x in st.chain && x !in Queued(st.toRemove)) || x in st.toAdd
    ensures NonDecreasing(Settle(st).chain, Settle(st).cells)
  {
    SettleValid(st);
    var s1 := st.(dispatching := false);
    var s2 := if s1.toRemove.Some? then s1.(chain := RemoveAll(s1.chain, s1.toRemove.value), toRemove := None) else s1;
    assert forall x :: x in s2.chain <==> x in st.chain && x !in Queued(st.toRemove);
    if s2.toAdd != [] {
      var r := InsertedAll(s2.chain, s2.toAdd, s2.cells);
      forall x
        ensures x in r <==> x in s2.chain || x in s2.toAdd
      {
        assert x in r <==> x in multiset(r);
        assert x in s2.chain <==> x in multiset(s2.chain);
        assert x in s2.toAdd <==> x in multiset(s2.toAdd);
      }
    }
  }

  /**
   * A listener's exception escapes `updateAndNotify` without the chain
   * being restored: the value stays dispatching, so every later update
   * throws NullPointerException and every later `listen` only queues.
   */
  lemma ThrowLeavesDispatching<T>(script: Script<T>, st: LegacyState<T>, v: Option<T>, w: Option<T>, slot: nat, priority: int)
    requires ValidState(st) && !st.dispatching
    ensures var (r, res) := UpdateSpec(script, st, v);
      res.Throws? ==>
        && r.dispatching
        && UpdateSpec(script, r, w) == (r.(value := w), Throws(NullPointer("null")))
        && ListenSpec(r, slot, priority).0.chain == r.chain
  {
    var s0 := st.(value := v, dispatching := true);
    PassValid(script, s0, st.chain, v, st.value);
  }

  /**
   * `equals(other)`: false for null and for another class; otherwise the
   * other value's held value is asked whether it equals this one's (the
   * mirror of the newer `AbstractValue.equals`).
   */
  function LegacyEquals<T(==)>(cls: string, v: Option<T>, other: Option<(string, Option<T>)>, eq: (T, Option<T>) -> bool): (r: bool)
    ensures other.None? ==> !r
    ensures other.Some? && other.value.0 != cls ==> !r
    ensures other.Some? && other.value.1 == v ==> (r <==> other.value.0 == cls)
  {
    match other
    case None => false
    case Some((ocls, ov)) => ocls == cls && Equals(ov, v, eq)
  }

  /** The older `equals` of `a` against `b` is the newer one of `b` against `a`. */
  lemma LegacyEqualsMirrorsNewer<T>(cls: string, a: Option<T>, b: Option<T>, eq: (T, Option<T>) -> bool)
    ensures LegacyEquals(cls, a, Some((cls, b)), eq) == ValueHolders.ValueEquals(cls, b, Some((cls, a)), eq)
  {
  }
}
