/**
 * The connection chain of the main engine (react/Cons.java).
 *
 * A reactor keeps its connections in an intrusive singly linked chain of
 * cells. The chain is ordered by non-increasing priority, and cells of equal
 * priority stay in the order they were added. Each cell is identified by a
 * `CellId`; its `next` link lives in the `Chain` object, and its other
 * fields (listener, priority, one-shot flag, owner) in a `Cells` map kept by
 * the owning reactor.
 *
 * The sequence functions `Inserted`, `Removed` and `RemovedAll` say what the
 * chain becomes; the `Chain` methods walk and rewrite the links the way the
 * source does and are proved to produce exactly those sequences.
 */
module Cons {
  import opened Common

  type CellId = nat

  /** A listener object, compared by identity. `Noop` is the owner's placeholder listener. */
  datatype Listener = Noop | Slot(id: nat)

  /**
   * The fields of a cell other than its link. `owned` is "the cell's owner is
   * not null", i.e. the connection has not been closed.
   */
  datatype Cell = Cell(listener: Listener, priority: int, oneShot: bool, owned: bool)

  type Cells = map<CellId, Cell>

  /** A cell's priority; a cell unknown to `cells` has the default priority 0. */
  function Prio(cells: Cells, c: CellId): int {
    if c in cells then cells[c].priority else 0
  }

  /** A cell's current listener, as returned by `Cons.listener()`. */
  function ListenerOf(cells: Cells, c: CellId): Listener {
    if c in cells then cells[c].listener else Noop
  }

  predicate Distinct(s: seq<CellId>) {
    forall i, j :: 0 <= i < j < |s| ==> s[i] != s[j]
  }

  /** The chain's ordering invariant: priorities never increase along the chain. */
  predicate NonIncreasing(s: seq<CellId>, cells: Cells) {
    forall i, j :: 0 <= i < j < |s| ==> Prio(cells, s[i]) >= Prio(cells, s[j])
  }

  // ---------------------------------------------------------------------
  // Insertion
  // ---------------------------------------------------------------------

  /** The chain after `insert(head, c)`: `c` goes before the first cell of strictly lower priority. */
  function Inserted(s: seq<CellId>, cells: Cells, c: CellId): (r: seq<CellId>)
    ensures |r| == |s| + 1
  {
    if s == [] then [c]
    else if Prio(cells, c) > Prio(cells, s[0]) then [c] + s
    else [s[0]] + Inserted(s[1..], cells, c)
  }

  /** Index of the first cell whose priority is below `p` (or `|s|` when there is none). */
  function FirstBelow(s: seq<CellId>, cells: Cells, p: int): (k: nat)
    ensures k <= |s|
    ensures forall j :: 0 <= j < k ==> Prio(cells, s[j]) >= p
    ensures k < |s| ==> Prio(cells, s[k]) < p
  {
    if s == [] then 0
    else if Prio(cells, s[0]) < p then 0
    else 1 + FirstBelow(s[1..], cells, p)
  }

  /** `FirstBelow` is the only index with its two defining properties. */
  lemma {:induction false} FirstBelowUnique(s: seq<CellId>, cells: Cells, p: int, k: nat)
    requires k <= |s|
    requires forall j :: 0 <= j < k ==> Prio(cells, s[j]) >= p
    requires k < |s| ==> Prio(cells, s[k]) < p
    ensures FirstBelow(s, cells, p) == k
  {
    if s != [] && Prio(cells, s[0]) >= p {
      FirstBelowUnique(s[1..], cells, p, k - 1);
    }
  }

  /**
   * Where `insert` puts the new cell: after every cell of equal or higher
   * priority that precedes the first strictly lower one, and before that one.
   */
  lemma {:induction false} InsertedAt(s: seq<CellId>, cells: Cells, c: CellId)
    ensures var k := FirstBelow(s, cells, Prio(cells, c));
      Inserted(s, cells, c) == s[..k] + [c] + s[k..]
  {
    if s != [] && Prio(cells, c) <= Prio(cells, s[0]) {
      InsertedAt(s[1..], cells, c);
      SplicedCons(s, FirstBelow(s[1..], cells, Prio(cells, c)), c);
    } else {
      assert s[..0] == [] && s[0..] == s;
    }
  }

  /** Splicing `c` in at `k` in the tail of `s` is splicing it in at `k + 1` in `s`. */
  lemma SplicedCons(s: seq<CellId>, k: nat, c: CellId)
    requires 0 < |s| && k < |s|
    ensures [s[0]] + (s[1..][..k] + [c] + s[1..][k..]) == s[..k + 1] + [c] + s[k + 1..]
  {
    assert s[1..][..k] == s[1..k + 1] && s[1..][k..] == s[k + 1..];
    assert s[..k + 1] == [s[0]] + s[1..k + 1];
  }

  /** A cell of priority at least that of every cell of a sorted chain can go in front of it. */
  lemma NonIncreasingCons(x: CellId, t: seq<CellId>, cells: Cells)
    requires NonIncreasing(t, cells)
    requires forall y :: y in t ==> Prio(cells, y) <= Prio(cells, x)
    ensures NonIncreasing([x] + t, cells)
  {
    var r := [x] + t;
    forall i, j | 0 <= i < j < |r| ensures Prio(cells, r[i]) >= Prio(cells, r[j]) {
      assert r[j] == t[j - 1];
      if i > 0 { assert r[i] == t[i - 1]; }
    }
  }

  /** Inserting into a chain sorted by non-increasing priority keeps it sorted. */
  lemma {:induction false} InsertedKeepsOrder(s: seq<CellId>, cells: Cells, c: CellId)
    requires NonIncreasing(s, cells)
    ensures NonIncreasing(Inserted(s, cells, c), cells)
  {
    if s == [] {
    } else if Prio(cells, c) > Prio(cells, s[0]) {
      forall y | y in s ensures Prio(cells, y) <= Prio(cells, c) {
        var j :| 0 <= j < |s| && s[j] == y;
        assert j == 0 || Prio(cells, s[0]) >= Prio(cells, s[j]);
      }
      NonIncreasingCons(c, s, cells);
    } else {
      var t := s[1..];
      assert NonIncreasing(t, cells) by {
        forall i, j | 0 <= i < j < |t| ensures Prio(cells, t[i]) >= Prio(cells, t[j]) {
          assert t[i] == s[i + 1] && t[j] == s[j + 1];
        }
      }
      InsertedKeepsOrder(t, cells, c);
      InsertedContents(t, cells, c);
      forall y | y in Inserted(t, cells, c) ensures Prio(cells, y) <= Prio(cells, s[0]) {
        if y != c {
          var j :| 0 <= j < |t| && t[j] == y;
          assert s[j + 1] == y;
        }
      }
      NonIncreasingCons(s[0], Inserted(t, cells, c), cells);
    }
  }

  /** The chain after `insert` holds exactly the old cells plus the new one. */
  lemma InsertedContents(s: seq<CellId>, cells: Cells, c: CellId)
    ensures multiset(Inserted(s, cells, c)) == multiset(s) + multiset{c}
    ensures forall x :: x in Inserted(s, cells, c) <==> x in s || x == c
  {
    var r := Inserted(s, cells, c);
    InsertedAt(s, cells, c);
    var k := FirstBelow(s, cells, Prio(cells, c));
    assert s == s[..k] + s[k..];
    assert multiset(r) == multiset(s) + multiset{c};
    forall x ensures x in r <==> x in s || x == c {
      assert x in r <==> x in multiset(r);
      assert x in s <==> x in multiset(s);
    }
  }

  /** The tail of a duplicate-free sequence is duplicate-free and lacks the head. */
  lemma DistinctTail(s: seq<CellId>)
    requires Distinct(s) && s != []
    ensures Distinct(s[1..]) && s[0] !in s[1..]
  {
    assert forall j :: 0 <= j < |s[1..]| ==> s[1..][j] == s[j + 1];
  }

  /** A cell prepended to a chain free of duplicates that does not hold it keeps it free of them. */
  lemma DistinctCons(x: CellId, t: seq<CellId>)
    requires Distinct(t) && x !in t
    ensures Distinct([x] + t)
  {
    var r := [x] + t;
    forall i, j | 0 <= i < j < |r| ensures r[i] != r[j] {
      assert r[j] == t[j - 1];
      if i > 0 { assert r[i] == t[i - 1]; }
    }
  }

  /** Inserting a cell that is not yet linked keeps the chain free of duplicates. */
  lemma {:induction false} InsertedDistinct(s: seq<CellId>, cells: Cells, c: CellId)
    requires Distinct(s) && c !in s
    ensures Distinct(Inserted(s, cells, c))
  {
    if s != [] && Prio(cells, c) <= Prio(cells, s[0]) {
      var t := s[1..];
      assert Distinct(t) && s[0] !in t by {
        forall i, j | 0 <= i < j < |t| ensures t[i] != t[j] { assert t[i] == s[i + 1] && t[j] == s[j + 1]; }
        forall j | 0 <= j < |t| ensures t[j] != s[0] { assert t[j] == s[j + 1]; }
      }
      assert c !in t;
      InsertedDistinct(t, cells, c);
      InsertedContents(t, cells, c);
      DistinctCons(s[0], Inserted(t, cells, c));
    }
  }

  // ---------------------------------------------------------------------
  // Removal of one cell
  // ---------------------------------------------------------------------

  /** The chain after `remove(head, c)`: the first (and, in a chain, only) occurrence of `c` unlinked. */
  function Removed(s: seq<CellId>, c: CellId): (r: seq<CellId>)
    ensures |r| == if c in s then |s| - 1 else |s|
  {
    if s == [] then []
    else if s[0] == c then s[1..]
    else [s[0]] + Removed(s[1..], c)
  }

  /** Removing a cell that is not in the chain leaves the chain unchanged. */
  lemma {:induction false} RemovedAbsent(s: seq<CellId>, c: CellId)
    requires c !in s
    ensures Removed(s, c) == s
  {
    if s != [] {
      RemovedAbsent(s[1..], c);
    }
  }

  /** Removal unlinks exactly the cell at its position and keeps every other cell in order. */
  lemma {:induction false} RemovedAt(s: seq<CellId>, c: CellId, i: nat)
    requires i < |s| && s[i] == c && c !in s[..i]
    ensures Removed(s, c) == s[..i] + s[i + 1..]
  {
    if i > 0 {
      assert s[0] in s[..i];
      RemovedAt(s[1..], c, i - 1);
      assert s[1..][..i - 1] == s[1..i];
      assert s[..i] == [s[0]] + s[1..i];
    }
  }

  /** Removing a cell takes out that cell and no other. */
  lemma {:induction false} RemovedMembers(s: seq<CellId>, c: CellId)
    ensures forall x :: x in Removed(s, c) ==> x in s
    ensures forall x :: x in s && x != c ==> x in Removed(s, c)
    ensures Distinct(s) ==> c !in Removed(s, c) && Distinct(Removed(s, c))
  {
    if s != [] {
      RemovedMembers(s[1..], c);
      assert forall x :: x in s <==> x == s[0] || x in s[1..];
      assert Distinct(s) ==> Distinct(s[1..]) && s[0] !in s[1..];
      if s[0] != c && Distinct(s) {
        var r := Removed(s, c);
        forall j | 0 < j < |r| ensures r[0] != r[j] {
          assert r[j] in Removed(s[1..], c);
        }
      }
    }
  }

  /** Removing a cell keeps the chain sorted. */
  lemma {:induction false} RemovedKeepsOrder(s: seq<CellId>, cells: Cells, c: CellId)
    requires NonIncreasing(s, cells)
    ensures NonIncreasing(Removed(s, c), cells)
  {
    if s != [] && s[0] != c {
      assert NonIncreasing(s[1..], cells);
      RemovedKeepsOrder(s[1..], cells, c);
      RemovedMembers(s[1..], c);
      var r := Removed(s, c);
      forall j | 0 < j < |r| ensures Prio(cells, r[0]) >= Prio(cells, r[j]) {
        assert r[j] in s[1..];
      }
    }
  }

  // ---------------------------------------------------------------------
  // Removal of every cell of one listener
  // ---------------------------------------------------------------------

  /** The chain after `removeAll(head, l)`: every cell whose listener is `l` is dropped. */
  function RemovedAll(s: seq<CellId>, cells: Cells, l: Listener): (r: seq<CellId>)
    ensures |r| <= |s|
  {
    if s == [] then []
    else if ListenerOf(cells, s[0]) == l then RemovedAll(s[1..], cells, l)
    else [s[0]] + RemovedAll(s[1..], cells, l)
  }

  /** A cell survives `removeAll` iff it was in the chain and its listener is not `l`. */
  lemma {:induction false} RemovedAllMembers(s: seq<CellId>, cells: Cells, l: Listener)
    ensures forall x :: x in RemovedAll(s, cells, l) <==> x in s && ListenerOf(cells, x) != l
  {
    if s != [] {
      RemovedAllMembers(s[1..], cells, l);
      assert forall x :: x in s <==> x == s[0] || x in s[1..];
    }
  }

  /** `removeAll` works cell by cell: on a concatenation it is the concatenation of the results. */
  lemma {:induction false} RemovedAllAppend(s: seq<CellId>, t: seq<CellId>, cells: Cells, l: Listener)
    ensures RemovedAll(s + t, cells, l) == RemovedAll(s, cells, l) + RemovedAll(t, cells, l)
  {
    if s == [] {
      assert s + t == t;
    } else {
      assert (s + t)[0] == s[0];
      assert (s + t)[1..] == s[1..] + t;
      RemovedAllAppend(s[1..], t, cells, l);
    }
  }

  /** Extending the scanned prefix by one cell extends the survivors by that cell when it survives. */
  lemma RemovedAllStep(s: seq<CellId>, i: nat, j: nat, cells: Cells, l: Listener)
    requires i <= j < |s|
    ensures RemovedAll(s[i..j + 1], cells, l)
      == RemovedAll(s[i..j], cells, l) + (if ListenerOf(cells, s[j]) == l then [] else [s[j]])
  {
    assert s[i..j + 1] == s[i..j] + [s[j]];
    RemovedAllAppend(s[i..j], [s[j]], cells, l);
    assert [s[j]][1..] == [];
  }

  /** `removeAll` keeps the surviving cells in their order, so the chain stays sorted and duplicate-free. */
  lemma {:induction false} RemovedAllKeepsOrder(s: seq<CellId>, cells: Cells, l: Listener)
    ensures NonIncreasing(s, cells) ==> NonIncreasing(RemovedAll(s, cells, l), cells)
    ensures Distinct(s) ==> Distinct(RemovedAll(s, cells, l))
  {
    if s != [] {
      RemovedAllKeepsOrder(s[1..], cells, l);
      RemovedAllMembers(s[1..], cells, l);
      var rest := RemovedAll(s[1..], cells, l);
      if ListenerOf(cells, s[0]) != l {
        var r := [s[0]] + rest;
        if NonIncreasing(s, cells) {
          forall j | 0 < j < |r| ensures Prio(cells, r[0]) >= Prio(cells, r[j]) {
            assert r[j] in s[1..];
          }
          assert NonIncreasing(s[1..], cells);
        }
        if Distinct(s) {
          assert s[0] !in s[1..];
          assert Distinct(s[1..]);
          forall j | 0 < j < |r| ensures r[0] != r[j] {
            assert r[j] in s[1..];
          }
        }
      } else {
        assert NonIncreasing(s, cells) ==> NonIncreasing(s[1..], cells);
        assert Distinct(s) ==> Distinct(s[1..]);
      }
    }
  }

  // ---------------------------------------------------------------------
  // The linked representation
  // ---------------------------------------------------------------------

  type Links = map<CellId, Option<CellId>>

  /** The `next` field of cell `c` (null when it was never set). */
  function LinkOf(next: Links, c: CellId): Option<CellId> {
    if c in next then next[c] else None
  }

  /**
   * `head` and `next` link exactly the cells of `m`, in order. The links of
   * cells outside the chain are unconstrained: the source leaves an unlinked
   * cell's `next` pointing wherever it pointed before.
   */
  ghost predicate LinkedAs(head: Option<CellId>, next: Links, m: seq<CellId>) {
    && Distinct(m)
    && head == (if m == [] then None else Some(m[0]))
    && (forall k :: 0 <= k < |m| ==> LinkAt(next, m, k))
  }

  /** The `k`-th cell of `m` links to the next one, or to nothing when it is the last. */
  ghost predicate LinkAt(next: Links, m: seq<CellId>, k: nat)
    requires k < |m|
  {
    LinkOf(next, m[k]) == if k + 1 < |m| then Some(m[k + 1]) else None
  }

  lemma LinkedStep(head: Option<CellId>, next: Links, m: seq<CellId>, k: nat)
    requires LinkedAs(head, next, m) && k < |m|
    ensures LinkOf(next, m[k]) == if k + 1 < |m| then Some(m[k + 1]) else None
  {
    assert LinkAt(next, m, k);
  }

  /** Linking a cell in front of the chain (which may be empty). */
  lemma LinkedPushFront(next: Links, m: seq<CellId>, c: CellId)
    requires LinkedAs(if m == [] then None else Some(m[0]), next, m) && c !in m
    ensures LinkedAs(Some(c), next[c := if m == [] then None else Some(m[0])], [c] + m)
  {
    var m' := [c] + m;
    var next' := next[c := if m == [] then None else Some(m[0])];
    forall k | 0 <= k < |m'|
      ensures LinkAt(next', m', k)
    {
      if k > 0 {
        assert m'[k] == m[k - 1] && m'[k] != c;
        LinkedStep(if m == [] then None else Some(m[0]), next, m, k - 1);
      }
    }
    forall i, j | 0 <= i < j < |m'| ensures m'[i] != m'[j] {
      assert m'[j] == m[j - 1];
      if i > 0 { assert m'[i] == m[i - 1]; }
    }
  }

  /** Linking a cell right after position `i` of the chain. */
  lemma LinkedInsertAfter(head: Option<CellId>, next: Links, m: seq<CellId>, i: nat, c: CellId)
    requires LinkedAs(head, next, m) && i < |m| && c !in m
    ensures LinkedAs(head, next[c := LinkOf(next, m[i])][m[i] := Some(c)], m[..i + 1] + [c] + m[i + 1..])
  {
    var m' := m[..i + 1] + [c] + m[i + 1..];
    var next' := next[c := LinkOf(next, m[i])][m[i] := Some(c)];
    assert Shape: forall k :: 0 <= k < |m'| ==> m'[k] == if k <= i then m[k] else if k == i + 1 then c else m[k - 1];
    forall k | 0 <= k < |m'|
      ensures LinkAt(next', m', k)
    {
      if k < i {
        LinkedStep(head, next, m, k);
        assert m'[k] == m[k] && m[k] != m[i] && m[k] != c;
      } else if k == i {
        assert m'[k] == m[i];
      } else if k == i + 1 {
        LinkedStep(head, next, m, i);
        assert m'[k] == c && c != m[i];
      } else {
        LinkedStep(head, next, m, k - 1);
        assert m'[k] == m[k - 1] && m[k - 1] != m[i] && m[k - 1] != c;
      }
    }
    forall a, b | 0 <= a < b < |m'| ensures m'[a] != m'[b] {
      assert m'[a] in m || m'[a] == c;
      if a <= i && b <= i {
      } else if a <= i && b == i + 1 {
      } else if a <= i {
        assert m'[b] == m[b - 1];
      } else if a == i + 1 {
        assert m'[b] == m[b - 1];
      } else {
        assert m'[a] == m[a - 1] && m'[b] == m[b - 1];
      }
    }
  }

  /** Linking a cell after the last one and ending the chain there. */
  lemma LinkedAppend(head: Option<CellId>, next: Links, m: seq<CellId>, c: CellId)
    requires LinkedAs(head, next, m) && m != [] && c !in m
    ensures LinkedAs(head, next[m[|m| - 1] := Some(c)][c := None], m + [c])
  {
    var last := m[|m| - 1];
    var m' := m + [c];
    var next' := next[last := Some(c)][c := None];
    forall k | 0 <= k < |m'|
      ensures LinkAt(next', m', k)
    {
      if k < |m| - 1 {
        LinkedStep(head, next, m, k);
        assert m'[k] == m[k] && m[k] != last && m[k] != c;
      } else if k == |m| - 1 {
        assert m'[k] == last && last != c;
      } else {
        assert m'[k] == c;
      }
    }
    forall a, b | 0 <= a < b < |m'| ensures m'[a] != m'[b] {
      assert m'[a] == m[a];
      if b < |m| { assert m'[b] == m[b]; }
    }
  }

  /** The link of the last cell of a prefix points at the first cell after it. */
  lemma LinkedLast(head: Option<CellId>, next: Links, kept: seq<CellId>, rest: seq<CellId>)
    requires LinkedAs(head, next, kept + rest) && kept != []
    ensures LinkOf(next, kept[|kept| - 1]) == if rest == [] then None else Some(rest[0])
  {
    var m := kept + rest;
    LinkedStep(head, next, m, |kept| - 1);
    assert m[|kept| - 1] == kept[|kept| - 1];
    if rest != [] { assert m[|kept|] == rest[0]; }
  }

  /** Unlinking the first cell: the chain now starts at its successor. */
  lemma LinkedPopFront(next: Links, m: seq<CellId>)
    requires m != [] && LinkedAs(Some(m[0]), next, m)
    ensures LinkedAs(LinkOf(next, m[0]), next, m[1..])
  {
    LinkedStep(Some(m[0]), next, m, 0);
    var m' := m[1..];
    forall k | 0 <= k < |m'|
      ensures LinkAt(next, m', k)
    {
      LinkedStep(Some(m[0]), next, m, k + 1);
    }
    forall a, b | 0 <= a < b < |m'| ensures m'[a] != m'[b] {
      assert m'[a] == m[a + 1] && m'[b] == m[b + 1];
    }
  }

  /** Unlinking the cell after position `i` by routing its predecessor's link around it. */
  lemma LinkedRemoveAfter(head: Option<CellId>, next: Links, m: seq<CellId>, i: nat)
    requires LinkedAs(head, next, m) && i + 1 < |m|
    ensures LinkedAs(head, next[m[i] := LinkOf(next, m[i + 1])], m[..i + 1] + m[i + 2..])
  {
    var m' := m[..i + 1] + m[i + 2..];
    var next' := next[m[i] := LinkOf(next, m[i + 1])];
    assert Shape: forall k :: 0 <= k < |m'| ==> m'[k] == if k <= i then m[k] else m[k + 1];
    forall k | 0 <= k < |m'|
      ensures LinkAt(next', m', k)
    {
      if k < i {
        LinkedStep(head, next, m, k);
        assert m'[k] == m[k] && m[k] != m[i];
      } else if k == i {
        LinkedStep(head, next, m, i + 1);
        assert m'[k] == m[i];
      } else {
        LinkedStep(head, next, m, k + 1);
        assert m'[k] == m[k + 1] && m[k + 1] != m[i];
      }
    }
    forall a, b | 0 <= a < b < |m'| ensures m'[a] != m'[b] {
      var a0 := if a <= i then a else a + 1;
      var b0 := if b <= i then b else b + 1;
      assert m'[a] == m[a0] && m'[b] == m[b0] && a0 < b0;
    }
  }

  /** Unlinking the cell right after a prefix. */
  lemma LinkedUnlinkNext(head: Option<CellId>, next: Links, kept: seq<CellId>, rest: seq<CellId>)
    requires LinkedAs(head, next, kept + rest) && kept != [] && rest != []
    ensures LinkedAs(head, next[kept[|kept| - 1] := LinkOf(next, rest[0])], kept + rest[1..])
  {
    var m := kept + rest;
    var i := |kept| - 1;
    LinkedRemoveAfter(head, next, m, i);
    assert m[i] == kept[i] && m[i + 1] == rest[0];
    assert m[..i + 1] == kept;
    assert m[i + 2..] == rest[1..];
  }

  /**
   * The `next` links of one reactor's cells and the head of its chain
   * (`Reactor._listeners` outside a dispatch). `members` is the chain as a
   * sequence, head first.
   */
  class Chain {
    var head: Option<CellId>
    var next: Links
    ghost var members: seq<CellId>

    ghost predicate Valid()
      reads this
    {
      LinkedAs(head, next, members)
    }

    constructor ()
      ensures Valid() && members == []
    {
      head := None;
      next := map[];
      members := [];
    }

    /** The `next` field of cell `c`. */
    function Link(c: CellId): Option<CellId>
      reads this
    {
      LinkOf(next, c)
    }

    /** Whether the chain is empty (`_listeners == null`). */
    function IsEmpty(): (r: bool)
      reads this
      requires Valid()
      ensures r <==> members == []
    {
      head.None?
    }

    /** `_listeners = null`: the chain is dropped; the cells keep their (now stale) links. */
    method Clear()
      modifies this
      ensures Valid() && members == [] && next == old(next)
    {
      head := None;
      members := [];
    }

    /**
     * `Cons.insert(head, c)`, except that `c`'s own link is written on every
     * branch. The source leaves it untouched when `c` becomes the only cell
     * or the last one, relying on it being null already (see "Findings" in
     * README.md).
     */
    method Insert(c: CellId, cells: Cells)
      requires Valid() && c !in members
      modifies this
      ensures Valid()
      ensures members == Inserted(old(members), cells, c)
    {
      if head.None? {
        LinkedPushFront(next, members, c);
        next := next[c := None];
        head := Some(c);
        members := [c];
        return;
      }
      var first := head.value;
      if Prio(cells, c) > Prio(cells, first) {
        LinkedPushFront(next, members, c);
        next := next[c := Some(first)];
        head := Some(c);
        members := [c] + members;
        return;
      }
      var cycle := first;
      ghost var i := 0;
      while true
        invariant 0 <= i < |members| && cycle == members[i]
        invariant forall j :: 0 <= j <= i ==> Prio(cells, c) <= Prio(cells, members[j])
        invariant Valid() && members == old(members)
        decreases |members| - i
      {
        LinkedStep(head, next, members, i);
        var after := Link(cycle);
        if after.None? {
          FirstBelowUnique(members, cells, Prio(cells, c), |members|);
          InsertedAt(members, cells, c);
          assert members[..|members|] == members;
          LinkedAppend(head, next, members, c);
          next := next[cycle := Some(c)][c := None];
          members := members + [c];
          return;
        }
        if Prio(cells, c) > Prio(cells, after.value) {
          FirstBelowUnique(members, cells, Prio(cells, c), i + 1);
          InsertedAt(members, cells, c);
          LinkedInsertAfter(head, next, members, i, c);
          next := next[c := after][cycle := Some(c)];
          members := members[..i + 1] + [c] + members[i + 1..];
          return;
        }
        cycle := after.value;
        i := i + 1;
      }
    }

    /** `Cons.remove(head, c)`: unlinks `c` by identity; the chain is unchanged when `c` is absent. */
    method Remove(c: CellId)
      requires Valid()
      modifies this
      ensures Valid()
      ensures members == Removed(old(members), c)
    {
      if head.None? {
        return;
      }
      var first := head.value;
      if first == c {
        LinkedPopFront(next, members);
        head := Link(c);
        members := members[1..];
        return;
      }
      var cycle := first;
      ghost var i := 0;
      while true
        invariant 0 <= i < |members| && cycle == members[i]
        invariant c !in members[..i + 1]
        invariant Valid() && members == old(members)
        decreases |members| - i
      {
        LinkedStep(head, next, members, i);
        var after := Link(cycle);
        if after.None? {
          assert members[..i + 1] == members;
          RemovedAbsent(members, c);
          return;
        }
        if after.value == c {
          RemovedAt(members, c, i + 1);
          LinkedRemoveAfter(head, next, members, i);
          next := next[cycle := Link(c)];
          members := members[..i + 1] + members[i + 2..];
          return;
        }
        assert members[..i + 2] == members[..i + 1] + [after.value];
        cycle := after.value;
        i := i + 1;
      }
    }

    /** `cycle.next = cycle.next.next`: unlinks the cell after `cycle`, the last of the kept cells. */
    method UnlinkAfter(cycle: CellId, ghost kept: seq<CellId>, ghost rest: seq<CellId>)
      requires Valid() && members == kept + rest && kept != [] && rest != [] && cycle == kept[|kept| - 1]
      modifies this
      ensures Valid() && head == old(head) && members == kept + rest[1..]
    {
      LinkedUnlinkNext(head, next, kept, rest);
      LinkedLast(head, next, kept, rest);
      var after := Link(cycle).value;
      next := next[cycle := Link(after)];
      members := kept + rest[1..];
    }

    /** The loop of `Cons.removeAll`: unlinks every cell behind the head whose listener is `l`. */
    method PruneBehindHead(l: Listener, cells: Cells)
      requires Valid() && head.Some?
      modifies this
      ensures Valid() && head == old(head) && old(members) != []
      ensures members == [old(members)[0]] + RemovedAll(old(members)[1..], cells, l)
    {
      var first := head.value;
      var cycle := first;
      ghost var scanned: seq<CellId> := [];
      ghost var rest := members[1..];
      ghost var kept := [first];
      while Link(cycle).Some?
        invariant old(members) == [first] + scanned + rest
        invariant kept == [first] + RemovedAll(scanned, cells, l)
        invariant members == kept + rest
        invariant cycle == kept[|kept| - 1]
        invariant Valid() && head == old(head)
        decreases |rest|
      {
        LinkedLast(head, next, kept, rest);
        var after := Link(cycle).value;
        RemovedAllAppend(scanned, [after], cells, l);
        ShiftOne([first] + scanned, rest);
        ConcatAssoc([first], scanned, [after]);
        if ListenerOf(cells, after) == l {
          UnlinkAfter(cycle, kept, rest);
        } else {
          ShiftOne(kept, rest);
          ConcatAssoc([first], RemovedAll(scanned, cells, l), [after]);
          cycle := after;
          kept := kept + [after];
        }
        scanned := scanned + [after];
        rest := rest[1..];
      }
      LinkedLast(head, next, kept, rest);
      assert old(members)[1..] == scanned;
    }

    /**
     * `Cons.removeAll(head, l)`: unlinks, behind the head, every cell whose
     * listener is `l`, then drops the head too if it matches.
     */
    method RemoveAll(l: Listener, cells: Cells)
      requires Valid()
      modifies this
      ensures Valid()
      ensures members == RemovedAll(old(members), cells, l)
    {
      if head.None? {
        return;
      }
      var first := head.value;
      PruneBehindHead(l, cells);
      if ListenerOf(cells, first) == l {
        LinkedPopFront(next, members);
        head := Link(first);
        members := members[1..];
      }
    }
  }
}
