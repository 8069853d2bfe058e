/**
 * react/RMap.java: a map that notifies `onPut`/`onRemove` to its listeners.
 * The backing map is a Dafny map from keys to nullable values (a key
 * mapped to `None` is a mapping to null, which HashMap allows). Where the
 * source walks the entries (`clear`, `connectNotify`) each entry is
 * visited once, in an order the model leaves open.
 */
module RMaps {
  import opened Common
  import opened ObjectsUtil
  import opened Collections

  datatype MapEvent<K, V> =
    | MapPut(key: K, value: Option<V>, oldValue: Option<V>)
    | MapRemoved(key: K, oldValue: Option<V>)

  const NullKey := "Must supply non-null 'key'."

  /** `get(key)`: the mapped value; null for an absent key and for a mapping to null alike. */
  function Lookup<K, V>(impl: map<K, Option<V>>, k: K): (r: Option<V>)
    ensures k !in impl ==> r.None?
    ensures k in impl ==> r == impl[k]
  {
    if k in impl then impl[k] else None
  }

  /** The removal events of `keys`, each with its value in `impl`. */
  ghost function MapRemovals<K, V>(impl: map<K, Option<V>>, keys: seq<K>): (r: seq<MapEvent<K, V>>)
    ensures |r| == |keys| && forall i :: 0 <= i < |keys| ==> r[i] == MapRemoved(keys[i], Lookup(impl, keys[i]))
  {
    seq(|keys|, i requires 0 <= i < |keys| => MapRemoved(keys[i], Lookup(impl, keys[i])))
  }

  lemma MapRemovalsSnoc<K, V>(impl: map<K, Option<V>>, keys: seq<K>, k: K)
    requires k in impl
    ensures MapRemovals(impl, keys + [k]) == MapRemovals(impl, keys) + [MapRemoved(k, impl[k])]
  {
    var a, b := MapRemovals(impl, keys + [k]), MapRemovals(impl, keys) + [MapRemoved(k, impl[k])];
    assert |a| == |b|;
    forall i | 0 <= i < |a| ensures a[i] == b[i] {
      assert (keys + [k])[i] == if i < |keys| then keys[i] else k;
    }
  }

  /**
   * What `containsKeyView(key)` reports for an event: `(true, false)` for
   * a put of `key` over null, `(false, true)` for a removal of `key`.
   */
  function ContainsKeyChange<K(==), V>(key: K, ev: MapEvent<K, V>): (r: Option<(bool, bool)>)
    ensures r.Some? ==> ev.key == key
  {
    if ev.key != key then None
    else match ev
      case MapPut(_, _, ov) => if ov.None? then Some((true, false)) else None
      case MapRemoved(_, _) => Some((false, true))
  }

  /** What `getView(key)` reports for an event on `key`: `(value, oldValue)`, or `(null, oldValue)` for a removal. */
  function GetViewChange<K(==), V>(key: K, ev: MapEvent<K, V>): (r: Option<(Option<V>, Option<V>)>)
    ensures r.Some? <==> ev.key == key
    ensures r.Some? ==> r.value.1 == ev.oldValue
  {
    if ev.key != key then None
    else match ev
      case MapPut(_, v, ov) => Some((v, ov))
      case MapRemoved(_, ov) => Some((None, ov))
  }

  /**
   * The event of one `put(k, m[k])` on a map whose old mappings are `impl`:
   * none when the new value is `areEqual` to the old one.
   */
  function PutEvent<K, V(==)>(impl: map<K, Option<V>>, m: map<K, Option<V>>, k: K, eq: (V, Option<V>) -> bool): (r: seq<MapEvent<K, V>>)
    requires k in m
    ensures r == [] <==> Equals(m[k], Lookup(impl, k), eq)
    ensures r != [] ==> r == [MapPut(k, m[k], Lookup(impl, k))]
  {
    if Equals(m[k], Lookup(impl, k), eq) then [] else [MapPut(k, m[k], Lookup(impl, k))]
  }

  /** The events of `put(k, m[k])` for each key of `ks` in turn, on a map that held `impl` before the first. */
  ghost function PutEvents<K, V>(impl: map<K, Option<V>>, m: map<K, Option<V>>, ks: seq<K>, eq: (V, Option<V>) -> bool): seq<MapEvent<K, V>>
    requires forall k :: k in ks ==> k in m
  {
    if ks == [] then []
    else PutEvents(impl, m, ks[..|ks| - 1], eq) + PutEvent(impl, m, ks[|ks| - 1], eq)
  }

  /** The mappings after `put(k, m[k])` for each key of `ks` in turn, starting from `impl`. */
  ghost function Puts<K, V>(impl: map<K, Option<V>>, m: map<K, Option<V>>, ks: seq<K>): map<K, Option<V>>
    requires forall k :: k in ks ==> k in m
  {
    if ks == [] then impl
    else Puts(impl, m, ks[..|ks| - 1])[ks[|ks| - 1] := m[ks[|ks| - 1]]]
  }

  /**
   * After the puts, a key of `ks` maps to its value in `m`, whatever the
   * order and however often it was put, and every other mapping is as it
   * was: the puts amount to `impl + m` restricted to the keys of `ks`.
   */
  lemma {:induction false} PutsMeaning<K, V>(impl: map<K, Option<V>>, m: map<K, Option<V>>, ks: seq<K>)
    requires forall k :: k in ks ==> k in m
    ensures Puts(impl, m, ks).Keys == impl.Keys + set k | k in ks
    ensures forall k :: k in ks ==> Puts(impl, m, ks)[k] == m[k]
    ensures forall k :: k !in ks && k in impl ==> Puts(impl, m, ks)[k] == impl[k]
  {
    if ks != [] {
      var init, last := ks[..|ks| - 1], ks[|ks| - 1];
      assert forall x :: x in ks <==> x in init || x == last;
      PutsMeaning(impl, m, init);
    }
  }

  /**
   * When the keys of `ks` are distinct, `putAll` announces a put exactly
   * for each key of `ks` whose new value is not `areEqual` to its value
   * before `putAll` began, with that value as the old one.
   */
  lemma {:induction false} PutEventsMeaning<K, V>(impl: map<K, Option<V>>, m: map<K, Option<V>>, ks: seq<K>, eq: (V, Option<V>) -> bool)
    requires forall k :: k in ks ==> k in m
    requires forall i, j :: 0 <= i < j < |ks| ==> ks[i] != ks[j]
    ensures forall ev :: ev in PutEvents(impl, m, ks, eq) <==>
      && ev.MapPut? && ev.key in ks && ev.value == m[ev.key] && ev.oldValue == Lookup(impl, ev.key)
      && !Equals(m[ev.key], Lookup(impl, ev.key), eq)
    ensures |PutEvents(impl, m, ks, eq)| <= |ks|
  {
    if ks != [] {
      var init, k := ks[..|ks| - 1], ks[|ks| - 1];
      assert forall x :: x in ks <==> x in init || x == k;
      PutEventsMeaning(impl, m, init, eq);
    }
  }

  /** Putting every key of `m` gives `impl + m`. */
  lemma PutsEvery<K, V>(impl: map<K, Option<V>>, m: map<K, Option<V>>, ks: seq<K>)
    requires forall k :: k in ks <==> k in m
    ensures Puts(impl, m, ks) == impl + m
  {
    PutsMeaning(impl, m, ks);
    var p := Puts(impl, m, ks);
    assert (set k | k in ks) == m.Keys;
    forall k | k in p ensures p[k] == (impl + m)[k] {
      assert k in ks <==> k in m;
    }
  }

  /** One more put of a key not yet written: its old value is the one before `putAll`. */
  lemma PutAllStep<K, V>(impl: map<K, Option<V>>, m: map<K, Option<V>>, ks: seq<K>, k: K, eq: (V, Option<V>) -> bool)
    requires forall x :: x in ks ==> x in m
    requires k in m && k !in ks
    ensures Lookup(Puts(impl, m, ks), k) == Lookup(impl, k)
    ensures Puts(impl, m, ks + [k]) == Puts(impl, m, ks)[k := m[k]]
    ensures PutEvents(impl, m, ks + [k], eq) == PutEvents(impl, m, ks, eq) + PutEvent(impl, m, k, eq)
  {
    assert (ks + [k])[..|ks|] == ks;
    PutsMeaning(impl, m, ks);
  }

  class RMap<K(==), V(==)> {
    const rx: Emitter<MapEvent<K, V>>
    /** `equals` of the value class, for `areEqual`. */
    const eq: (V, Option<V>) -> bool
    /** `_impl`. */
    var impl: map<K, Option<V>>

    /**
     * The size view is a listener of the map: it takes `size()` on every
     * put or remove event, and an event-free `put(key, null)` of a new key
     * leaves it behind. It is never ahead of the map.
     */
    ghost predicate Valid()
      reads this, rx
    {
      rx.sizeView.Some? ==> 0 <= rx.sizeView.value <= |impl|
    }

    /** `RMap(impl)`: wraps the map; nothing is notified. */
    constructor (impl: map<K, Option<V>>, eq: (V, Option<V>) -> bool, reaction: MapEvent<K, V> -> Option<Exn>)
      ensures Valid() && this.impl == impl && this.eq == eq && rx.reaction == reaction && rx.events == [] && fresh(rx)
    {
      this.impl := impl;
      this.eq := eq;
      rx := new Emitter(reaction);
    }

    function Get(k: K): (r: Option<V>)
      reads this
      ensures r == Lookup(impl, k)
    {
      Lookup(impl, k)
    }

    /** `getOrElse(key, default)`: the default when the key is absent or mapped to null. */
    function GetOrElse(k: K, dflt: V): (r: V)
      reads this
      ensures k in impl && impl[k].Some? ==> r == impl[k].value
      ensures !(k in impl && impl[k].Some?) ==> r == dflt
    {
      match Get(k)
      case Some(v) => v
      case None => dflt
    }

    /**
     * `put(key, value)`: stores the mapping, notifies `onPut(key, value,
     * old)` only when `value` is not `areEqual` to the old value, and
     * returns the old value (null if there was none). Without an event the
     * size view does not move, even when a null was stored under a new key.
     */
    method Put(k: K, v: Option<V>) returns (r: Result<Option<V>>)
      requires Valid()
      modifies this, rx
      ensures Valid() && impl == old(impl)[k := v] && rx.connections == old(rx.connections)
      ensures Equals(v, old(Lookup(impl, k)), eq) ==>
        && r == Ok(old(Lookup(impl, k))) && rx.events == old(rx.events)
        && rx.sizeView == old(rx.sizeView) && rx.sizeChanges == old(rx.sizeChanges)
      ensures !Equals(v, old(Lookup(impl, k)), eq) ==>
        var ev := MapPut(k, v, old(Lookup(impl, k)));
        && rx.events == old(rx.events) + [ev] && r == Returning(rx.reaction(ev), old(Lookup(impl, k)))
        && (rx.sizeView, rx.sizeChanges) == SizeStep(old(rx.sizeView), old(rx.sizeChanges), |impl|)
    {
      var ovalue := Get(k);
      impl := impl[k := v];
      if !Equals(v, ovalue, eq) {
        var thrown := rx.Notify(MapPut(k, v, ovalue), |impl|);
        return Returning(thrown, ovalue);
      }
      r := Ok(ovalue);
    }

    /** `putForce(key, value)`: stores the mapping and always notifies; returns the old value. */
    method PutForce(k: K, v: Option<V>) returns (r: Result<Option<V>>)
      requires Valid()
      modifies this, rx
      ensures Valid() && impl == old(impl)[k := v] && rx.connections == old(rx.connections)
      ensures var ev := MapPut(k, v, old(Lookup(impl, k)));
        rx.events == old(rx.events) + [ev] && r == Returning(rx.reaction(ev), old(Lookup(impl, k)))
    {
      var ovalue := Get(k);
      impl := impl[k := v];
      var thrown := rx.Notify(MapPut(k, v, ovalue), |impl|);
      r := Returning(thrown, ovalue);
    }

    /**
     * `remove(key)`: an absent key gives null and no event; a present one is
     * removed, notified with its old value, which is returned.
     */
    method Remove(k: K) returns (r: Result<Option<V>>)
      requires Valid()
      modifies this, rx
      ensures Valid() && impl == old(impl) - {k} && rx.connections == old(rx.connections)
      ensures k !in old(impl) ==> r == Ok(None) && rx.events == old(rx.events) && rx.sizeView == old(rx.sizeView)
      ensures k in old(impl) ==>
        var ev := MapRemoved(k, old(impl)[k]);
        rx.events == old(rx.events) + [ev] && r == Returning(rx.reaction(ev), old(impl)[k])
    {
      if k !in impl {
        return Ok(None);
      }
      var ovalue := impl[k];
      impl := impl - {k};
      var thrown := rx.Notify(MapRemoved(k, ovalue), |impl|);
      r := Returning(thrown, ovalue);
    }

    /** `removeForce(key)`: removes and always notifies, even with no mapping; returns the old value. */
    method RemoveForce(k: K) returns (r: Result<Option<V>>)
      requires Valid()
      modifies this, rx
      ensures Valid() && impl == old(impl) - {k} && rx.connections == old(rx.connections)
      ensures var ev := MapRemoved(k, old(Lookup(impl, k)));
        rx.events == old(rx.events) + [ev] && r == Returning(rx.reaction(ev), old(Lookup(impl, k)))
    {
      var ovalue := Get(k);
      impl := impl - {k};
      var thrown := rx.Notify(MapRemoved(k, ovalue), |impl|);
      r := Returning(thrown, ovalue);
    }

    /**
     * `keySet().remove(key)`: notifies a removal, with the old value, only
     * when a mapping was actually removed; returns whether one was.
     */
    method KeySetRemove(k: K) returns (r: Result<bool>)
      requires Valid()
      modifies this, rx
      ensures Valid() && impl == old(impl) - {k} && rx.connections == old(rx.connections)
      ensures k !in old(impl) ==> r == Ok(false) && rx.events == old(rx.events)
      ensures k in old(impl) ==>
        var ev := MapRemoved(k, old(impl)[k]);
        rx.events == old(rx.events) + [ev] && r == Returning(rx.reaction(ev), true)
    {
      var ovalue := Get(k);
      var modified := k in impl;
      impl := impl - {k};
      if modified {
        var thrown := rx.Notify(MapRemoved(k, ovalue), |impl|);
        return Returning(thrown, true);
      }
      r := Ok(false);
    }

    /**
     * `putAll(m)`: `put(k, m[k])` for each key of `m`, in an order left open
     * (`order`), each with its own notification; a listener's exception
     * ends the loop, after `n` puts, and propagates.
     */
    method PutAll(m: map<K, Option<V>>) returns (r: Result<()>, ghost order: seq<K>, ghost n: nat)
      requires Valid()
      modifies this, rx
      ensures Valid() && rx.connections == old(rx.connections)
      ensures (forall k :: k in order <==> k in m) && forall i, j :: 0 <= i < j < |order| ==> order[i] != order[j]
      ensures n <= |order| && impl == Puts(old(impl), m, order[..n])
      ensures rx.events == old(rx.events) + PutEvents(old(impl), m, order[..n], eq)
      ensures r.Ok? ==> n == |order| && impl == old(impl) + m
      ensures r.Throws? ==> n > 0 && var evs := PutEvent(old(impl), m, order[n - 1], eq);
        evs != [] && rx.reaction(evs[0]) == Some(r.exn)
    {
      var keys := Enumerate(m.Keys);
      order := keys;
      assert forall k :: k in order <==> k in m;
      r, n := PutEach(m, keys);
      if r.Ok? {
        assert keys[..n] == keys;
        PutsEvery(old(impl), m, keys);
      }
    }

    /** The walk of `putAll` over `keys`, distinct keys of `m`: `put` of each until one throws. */
    method PutEach(m: map<K, Option<V>>, keys: seq<K>) returns (r: Result<()>, ghost n: nat)
      requires Valid()
      requires (forall k :: k in keys ==> k in m) && forall i, j :: 0 <= i < j < |keys| ==> keys[i] != keys[j]
      modifies this, rx
      ensures Valid() && rx.connections == old(rx.connections)
      ensures n <= |keys| && impl == Puts(old(impl), m, keys[..n])
      ensures rx.events == old(rx.events) + PutEvents(old(impl), m, keys[..n], eq)
      ensures r.Ok? ==> n == |keys|
      ensures r.Throws? ==> n > 0 && var evs := PutEvent(old(impl), m, keys[n - 1], eq);
        evs != [] && rx.reaction(evs[0]) == Some(r.exn)
    {
      var i := 0;
      r := Ok(());
      while i < |keys| && r.Ok?
        invariant 0 <= i <= |keys|
        invariant Valid() && rx.connections == old(rx.connections)
        invariant impl == Puts(old(impl), m, keys[..i])
        invariant rx.events == old(rx.events) + PutEvents(old(impl), m, keys[..i], eq)
        invariant r.Throws? ==> i > 0 && var evs := PutEvent(old(impl), m, keys[i - 1], eq);
          evs != [] && rx.reaction(evs[0]) == Some(r.exn)
      {
        var k := keys[i];
        ghost var done := keys[..i];
        assert k !in done;
        TakeOneMore(keys, i);
        PutAllStep(old(impl), m, done, k, eq);
        ConcatAssoc(old(rx.events), PutEvents(old(impl), m, done, eq), PutEvent(old(impl), m, k, eq));
        var put := Put(k, m[k]);
        r := if put.Throws? then Throws(put.exn) else Ok(());
        i := i + 1;
      }
      n := i;
    }

    /**
     * `clear()`: empties the map first, then notifies the removal of each
     * former entry, each once, with its value (`removed` lists the keys in
     * the order notified). An exception stops it after the removal that
     * caused it.
     */
    method Clear() returns (r: Result<()>, ghost removed: seq<K>)
      requires Valid()
      modifies this, rx
      ensures Valid() && impl == map[] && rx.connections == old(rx.connections)
      ensures forall i :: 0 <= i < |removed| ==> removed[i] in old(impl)
      ensures rx.events == old(rx.events) + MapRemovals(old(impl), removed)
      ensures forall i, j :: 0 <= i < j < |removed| ==> removed[i] != removed[j]
      ensures forall i :: 0 <= i < |removed| - 1 ==> rx.reaction(MapRemovals(old(impl), removed)[i]).None?
      ensures r.Ok? ==> forall k :: k in old(impl) ==> k in removed
      ensures r.Throws? ==> removed != [] && rx.reaction(MapRemovals(old(impl), removed)[|removed| - 1]) == Some(r.exn)
    {
      var entries := impl;
      var order := Enumerate(impl.Keys);
      impl := map[];
      ghost var n;
      r, n := NotifyRemovals(entries, order);
      removed := order[..n];
      if r.Ok? {
        assert removed == order;
      }
      if n == 0 {
        assert order == [] && entries.Keys == {};
      }
    }

    /**
     * The notifications of `clear()`, after the map is emptied: the removal
     * of each key of `order` with its value in `entries`, until one throws;
     * `n` counts those notified.
     */
    method NotifyRemovals(entries: map<K, Option<V>>, order: seq<K>) returns (r: Result<()>, ghost n: nat)
      requires impl == map[] && forall k :: k in order ==> k in entries
      modifies rx
      ensures rx.connections == old(rx.connections) && n <= |order|
      ensures rx.events == old(rx.events) + MapRemovals(entries, order[..n])
      ensures n == 0 ==> rx.sizeView == old(rx.sizeView)
      ensures n > 0 ==> Valid()
      ensures forall j :: 0 <= j < n - 1 ==> rx.reaction(MapRemovals(entries, order[..n])[j]).None?
      ensures r.Ok? ==> n == |order|
      ensures r.Throws? ==> n > 0 && rx.reaction(MapRemovals(entries, order[..n])[n - 1]) == Some(r.exn)
    {
      var thrown: Option<Exn> := None;
      var i := 0;
      ghost var evs: seq<MapEvent<K, V>> := [];
      while i < |order| && thrown.None?
        invariant 0 <= i <= |order|
        invariant rx.connections == old(rx.connections)
        invariant evs == MapRemovals(entries, order[..i]) && rx.events == old(rx.events) + evs
        invariant i == 0 ==> rx.sizeView == old(rx.sizeView)
        invariant i > 0 ==> Valid()
        invariant forall j :: 0 <= j < |evs| - 1 ==> rx.reaction(evs[j]).None?
        invariant thrown.None? ==> forall j :: 0 <= j < |evs| ==> rx.reaction(evs[j]).None?
        invariant thrown.Some? ==> evs != [] && rx.reaction(evs[|evs| - 1]) == thrown
      {
        var k := order[i];
        var ev := MapRemoved(k, entries[k]);
        MapRemovalsSnoc(entries, order[..i], k);
        TakeOneMore(order, i);
        ConcatAssoc(old(rx.events), evs, [ev]);
        thrown := rx.Notify(ev, 0);
        i := i + 1;
        evs := evs + [ev];
      }
      n := i;
      r := if thrown.Some? then Throws(thrown.value) else Ok(());
    }

    /**
     * `connectNotify(listener)`: `onPut(key, value, null)` for each entry,
     * each once, sent to the new listener alone, then `connect`; a throw
     * during the replay propagates and the listener is not connected.
     */
    method ConnectNotify(onPut: (K, Option<V>) -> Option<Exn>) returns (replayed: seq<K>, r: Result<()>)
      requires Valid()
      modifies rx
      ensures Valid()
      ensures rx.events == old(rx.events) && rx.sizeView == old(rx.sizeView) && rx.sizeChanges == old(rx.sizeChanges)
      ensures forall i :: 0 <= i < |replayed| ==> replayed[i] in impl
      ensures forall i, j :: 0 <= i < j < |replayed| ==> replayed[i] != replayed[j]
      ensures forall i :: 0 <= i < |replayed| - 1 ==> onPut(replayed[i], impl[replayed[i]]).None?
      ensures r.Ok? ==> (forall k :: k in impl ==> k in replayed) && rx.connections == old(rx.connections) + 1
      ensures r.Throws? ==> replayed != [] && onPut(replayed[|replayed| - 1], impl[replayed[|replayed| - 1]]) == Some(r.exn)
      ensures r.Throws? ==> rx.connections == old(rx.connections)
    {
      var rest := impl.Keys;
      replayed := [];
      while rest != {}
        invariant rest <= impl.Keys
        invariant forall i :: 0 <= i < |replayed| ==> replayed[i] in impl.Keys - rest
        invariant forall k :: k in impl.Keys - rest ==> k in replayed
        invariant forall i, j :: 0 <= i < j < |replayed| ==> replayed[i] != replayed[j]
        invariant forall i :: 0 <= i < |replayed| ==> onPut(replayed[i], impl[replayed[i]]).None?
        decreases |rest|
      {
        var k :| k in rest;
        rest := rest - {k};
        replayed := replayed + [k];
        var thrown := onPut(k, impl[k]);
        if thrown.Some? {
          return replayed, Throws(thrown.value);
        }
      }
      rx.Connect();
      r := Ok(());
    }

    /** `containsKeyView(key)`: a null key is refused; otherwise the view starts out as `containsKey(key)`. */
    function ContainsKeyView(key: Option<K>): (r: Result<bool>)
      reads this
      ensures key.None? ==> r == Throws(NullPointer(NullKey))
      ensures key.Some? ==> r == Ok(key.value in impl)
    {
      match key
      case None => Throws(NullPointer(NullKey))
      case Some(k) => Ok(k in impl)
    }

    /** `getView(key)`: a null key is refused; otherwise the view starts out as `get(key)`. */
    function GetView(key: Option<K>): (r: Result<Option<V>>)
      reads this
      ensures key.None? ==> r == Throws(NullPointer(NullKey))
      ensures key.Some? ==> r == Ok(Lookup(impl, key.value))
    {
      match key
      case None => Throws(NullPointer(NullKey))
      case Some(k) => Ok(Lookup(impl, k))
    }
  }

  /** No key is mapped to null: the maps on which `containsKeyView` is meant to work. */
  ghost predicate NoNulls<K, V>(impl: map<K, Option<V>>) {
    forall k :: k in impl ==> impl[k].Some?
  }

  /**
   * On a map without null mappings, `containsKeyView(key)` follows `put`
   * and `remove`: an event that changes whether `key` is present reports
   * `(present after, present before)`, and one that does not change it
   * reports nothing.
   */
  lemma ContainsKeyViewFollows<K, V>(impl: map<K, Option<V>>, key: K, k: K, v: V)
    requires NoNulls(impl)
    ensures var ev := MapPut(k, Some(v), Lookup(impl, k));
      var after := impl[k := Some(v)];
      (key in after) != (key in impl) <==> ContainsKeyChange(key, ev).Some?
    ensures var ev := MapPut(k, Some(v), Lookup(impl, k));
      ContainsKeyChange(key, ev).Some? ==> ContainsKeyChange(key, ev).value == (key in impl[k := Some(v)], key in impl)
    ensures k in impl ==>
      var ev := MapRemoved(k, impl[k]);
      && ((key in impl - {k}) != (key in impl) <==> ContainsKeyChange(key, ev).Some?)
      && (ContainsKeyChange(key, ev).Some? ==> ContainsKeyChange(key, ev).value == (key in impl - {k}, key in impl))
  {
  }

  /** A mapping to null fools `containsKeyView`: putting over it reports the key as newly added. */
  lemma ContainsKeyViewMisreadsNull<K, V>(impl: map<K, Option<V>>, k: K, v: V)
    requires k in impl && impl[k].None?
    ensures ContainsKeyChange(k, MapPut(k, Some(v), Lookup(impl, k))) == Some((true, false))
    ensures k in impl && k in impl[k := Some(v)]
  {
  }

  /** `getView(key)` follows every put and removal of `key`: it reports `(get after, get before)`. */
  lemma GetViewFollows<K, V>(impl: map<K, Option<V>>, key: K, v: Option<V>)
    ensures GetViewChange(key, MapPut(key, v, Lookup(impl, key))) == Some((Lookup(impl[key := v], key), Lookup(impl, key)))
    ensures GetViewChange(key, MapRemoved(key, Lookup(impl, key))) == Some((Lookup(impl - {key}, key), Lookup(impl, key)))
  {
  }
}
