/**
 * Two defects of the older `AbstractValue.updateAndNotify`, each shown on
 * the model as written (`LegacyValues.UpdateSpec`) and corrected here.
 *
 * 1. After a pass the queued removals are applied before the queued
 *    additions. A connection made during a pass and disconnected in the
 *    same pass is queued on both; its removal finds nothing to unlink, and
 *    then its addition links it: it stays connected.
 * 2. Nothing restores the chain when a listener throws, so the value stays
 *    dispatching for good.
 */
module LegacyFindings {
  import opened Common
  import opened LegacyValues

  /** One listener (slot 0) that, when called, connects slot 1 and disconnects it again. */
  function ListenThenDisconnect(slot: nat, v: Option<int>, ov: Option<int>): seq<LegacyAction<int>> {
    if slot == 0 then [ListenAct(1, 0), DisconnectAct(1)] else []
  }

  /** A value holding nothing, with one connection: cell 0, for slot 0. */
  function OneListener(): (st: LegacyState<int>)
    ensures ValidState(st)
  {
    LegacyState(None, [0], false, [], None, map[0 := LegacyCell(0, 0, false)], 1, [])
  }

  /**
   * As written: after `updateAndNotify(5)`, the connection that slot 0
   * made (cell 1) and then disconnected is linked.
   */
  lemma DisconnectInPassIgnored()
    ensures var (r, res) := UpdateSpec(ListenThenDisconnect, OneListener(), Some(5));
      res == Ok(None) && 1 in r.chain && r.chain == [0, 1]
  {
    var st := OneListener();
    var s0 := st.(value := Some(5), dispatching := true);
    var s1 := s0.(log := [Delivery(0, 0, Some(5), None)]);
    var (l, c) := ListenSpec(s1, 1, 0);
    assert c == 1 && l.toAdd == [1];
    assert l.dispatching && l.toRemove.None?;
    assert QueueRemove(None, 1) == {1};
    var (d, e) := DisconnectSpec(l, 1);
    assert d == l.(toRemove := Some({1})) && e.None?;
    assert RunActions(s1, [ListenAct(1, 0), DisconnectAct(1)]) == (d, None);
    assert ListenThenDisconnect(0, Some(5), None) == [ListenAct(1, 0), DisconnectAct(1)];
    assert CellOf(s0.cells, 0).slot == 0 && !CellOf(d.cells, 0).oneShot;
    assert s0.(log := s0.log + [Delivery(0, 0, Some(5), None)]) == s1;
    assert PassFrom(ListenThenDisconnect, d, [0][1..], Some(5), None) == (d, None);
    assert PassFrom(ListenThenDisconnect, s0, [0], Some(5), None) == (d, None);
    assert RemoveAll([0], {1}) == [0];
    assert Insert([0], d.cells, 1) == [0, 1];
  }

  /** After a pass, with the queued additions applied first and the removals second. */
  function SettleFixed<T>(st: LegacyState<T>): (r: LegacyState<T>)
    ensures forall x :: x in r.chain <==> (x in st.chain || x in st.toAdd) && x !in Queued(st.toRemove)
  {
    var added := InsertedAll(st.chain, st.toAdd, st.cells);
    assert forall x :: x in added <==> x in st.chain || x in st.toAdd by {
      forall x
        ensures x in added <==> x in st.chain || x in st.toAdd
      {
        assert x in added <==> x in multiset(added);
        assert x in st.chain <==> x in multiset(st.chain);
        assert x in st.toAdd <==> x in multiset(st.toAdd);
      }
    }
    st.(dispatching := false, chain := RemoveAll(added, Queued(st.toRemove)), toAdd := [], toRemove := None)
  }

  /**
   * `updateAndNotify` with both corrections: a listener's exception still
   * ends the pass and is rethrown, but only after the chain is restored and
   * the queued work applied; and additions are applied before removals.
   */
  function UpdateFixed<T>(script: Script<T>, st: LegacyState<T>, v: Option<T>): (LegacyState<T>, Result<Option<T>>) {
    if st.dispatching then (st.(value := v), Throws(NullPointer("null")))
    else
      var (s1, e) := PassFrom(script, st.(value := v, dispatching := true), st.chain, v, st.value);
      (SettleFixed(s1), if e.Some? then Throws(e.value) else Ok(st.value))
  }

  /**
   * Corrected: after an update, a connection disconnected during the pass
   * is not linked, every other connection made during it is, and the value
   * is no longer dispatching, even when a listener threw; the chain stays
   * in non-decreasing priority.
   */
  lemma UpdateFixedHonoursDisconnect<T>(script: Script<T>, st: LegacyState<T>, v: Option<T>)
    requires ValidState(st) && !st.dispatching
    ensures var s1 := PassFrom(script, st.(value := v, dispatching := true), st.chain, v, st.value).0;
      var r := UpdateFixed(script, st, v).0;
      && !r.dispatching
      && (forall x :: x in Queued(s1.toRemove) ==> x !in r.chain)
      && (forall x :: x in s1.toAdd && x !in Queued(s1.toRemove) ==> x in r.chain)
      && NonDecreasing(r.chain, r.cells)
  {
    var s0 := st.(value := v, dispatching := true);
    PassValid(script, s0, st.chain, v, st.value);
    var s1 := PassFrom(script, s0, st.chain, v, st.value).0;
    InsertedAllSorted(s1.chain, s1.toAdd, s1.cells);
    RemoveAllSorted(InsertedAll(s1.chain, s1.toAdd, s1.cells), Queued(s1.toRemove), s1.cells);
  }

  /**
   * Corrected: an update whose listener throws still rethrows that
   * exception, but leaves a value at rest with nothing queued, so later
   * updates run a pass again.
   */
  lemma UpdateFixedRecovers<T>(script: Script<T>, st: LegacyState<T>, v: Option<T>)
    requires ValidState(st) && !st.dispatching
    ensures var (s1, e) := PassFrom(script, st.(value := v, dispatching := true), st.chain, v, st.value);
      var (r, res) := UpdateFixed(script, st, v);
      && ValidState(r) && !r.dispatching
      && (e.Some? <==> res.Throws?)
      && (e.Some? ==> res.exn == e.value)
  {
    var s0 := st.(value := v, dispatching := true);
    PassValid(script, s0, st.chain, v, st.value);
    var s1 := PassFrom(script, s0, st.chain, v, st.value).0;
    var r := SettleFixed(s1);
    InsertedAllSorted(s1.chain, s1.toAdd, s1.cells);
    RemoveAllSorted(InsertedAll(s1.chain, s1.toAdd, s1.cells), Queued(s1.toRemove), s1.cells);
    forall i | 0 <= i < |r.chain|
      ensures r.chain[i] in r.cells
    {
      var x := r.chain[i];
      assert x in s1.chain || x in s1.toAdd;
      if x in s1.chain {
        var j :| 0 <= j < |s1.chain| && s1.chain[j] == x;
      } else {
        var j :| 0 <= j < |s1.toAdd| && s1.toAdd[j] == x;
      }
    }
  }

  /** Corrected, on the same listener: the connection it made and disconnected is gone. */
  lemma DisconnectInPassHonoured()
    ensures var (r, res) := UpdateFixed(ListenThenDisconnect, OneListener(), Some(5));
      res == Ok(None) && 1 !in r.chain && r.chain == [0]
  {
    var st := OneListener();
    var s0 := st.(value := Some(5), dispatching := true);
    var s1 := s0.(log := [Delivery(0, 0, Some(5), None)]);
    var (l, c) := ListenSpec(s1, 1, 0);
    assert l.dispatching && l.toRemove.None? && l.toAdd == [1];
    assert QueueRemove(None, 1) == {1};
    var (d, e) := DisconnectSpec(l, 1);
    assert d == l.(toRemove := Some({1})) && e.None?;
    assert RunActions(s1, [ListenAct(1, 0), DisconnectAct(1)]) == (d, None);
    assert ListenThenDisconnect(0, Some(5), None) == [ListenAct(1, 0), DisconnectAct(1)];
    assert CellOf(s0.cells, 0).slot == 0 && !CellOf(d.cells, 0).oneShot;
    assert s0.(log := s0.log + [Delivery(0, 0, Some(5), None)]) == s1;
    assert PassFrom(ListenThenDisconnect, d, [0][1..], Some(5), None) == (d, None);
    assert PassFrom(ListenThenDisconnect, s0, [0], Some(5), None) == (d, None);
    assert InsertedAll([0], [1], d.cells) == [0, 1];
    assert RemoveAll([0, 1], {1}) == [0];
  }
}
