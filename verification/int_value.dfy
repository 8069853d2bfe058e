/**
 * react/IntValue.java: a value of Java `int` with arithmetic updates. Java
 * `int` arithmetic wraps around modulo 2^32; the sum or difference is
 * wrapped before it is clamped, as the source computes it.
 */
module IntValues {
  import opened Common
  import opened Engine
  import opened ObjectsUtil
  import opened Reactors
  import opened ValueHolders
  import EngineFacts
  import SignalScenarios

  newtype int32 = x: int | -0x8000_0000 <= x < 0x8000_0000

  const MinInt: int32 := -0x8000_0000
  const MaxInt: int32 := 0x7fff_ffff

  /** Two's complement wrap-around of a mathematical integer into `int`. */
  function Wrap(x: int): (r: int32)
    ensures (r as int - x) % 0x1_0000_0000 == 0
    ensures MinInt as int <= x <= MaxInt as int ==> r as int == x
  {
    ((x + 0x8000_0000) % 0x1_0000_0000 - 0x8000_0000) as int32
  }

  function Min(a: int32, b: int32): int32 { if a <= b then a else b }
  function Max(a: int32, b: int32): int32 { if a >= b then a else b }

  /** `Integer.equals`: equal to a non-null integer of the same value. */
  function IntEquals(x: int32, y: Option<int32>): bool {
    y == Some(x)
  }

  /** The value `increment(a)` stores: `get() + a` in `int` arithmetic. */
  function Incremented(cur: int32, a: int32): int32 {
    Wrap(cur as int + a as int)
  }

  /** The value `incrementClamp(a, max)` stores: `Math.min(get() + a, max)`. */
  function IncrementedClamp(cur: int32, a: int32, max: int32): (r: int32)
    ensures r <= max
  {
    Min(Wrap(cur as int + a as int), max)
  }

  /** The value `incrementClamp(a, min, max)` stores: `Math.max(min, Math.min(get() + a, max))`. */
  function IncrementedClampRange(cur: int32, a: int32, min: int32, max: int32): (r: int32)
    ensures min <= r
    ensures min <= max ==> r <= max
  {
    Max(min, Min(Wrap(cur as int + a as int), max))
  }

  /** The value `decrementClamp(a, min)` stores: `Math.max(get() - a, min)`. */
  function DecrementedClamp(cur: int32, a: int32, min: int32): (r: int32)
    ensures min <= r
  {
    Max(Wrap(cur as int - a as int), min)
  }

  /**
   * When the sum stays within `int`, the clamps are the mathematical ones:
   * `min(get() + a, max)`, the sum confined to `[min, max]`, and
   * `max(get() - a, min)`.
   */
  lemma ClampsWithoutOverflow(cur: int32, a: int32, min: int32, max: int32)
    ensures MinInt as int <= cur as int + a as int <= MaxInt as int ==>
      && Incremented(cur, a) as int == cur as int + a as int
      && IncrementedClamp(cur, a, max) as int == (if cur as int + a as int <= max as int then cur as int + a as int else max as int)
      && (min <= max ==>
            IncrementedClampRange(cur, a, min, max) as int ==
            (if cur as int + a as int < min as int then min as int
             else if cur as int + a as int > max as int then max as int
             else cur as int + a as int))
    ensures MinInt as int <= cur as int - a as int <= MaxInt as int ==>
      DecrementedClamp(cur, a, min) as int == (if cur as int - a as int >= min as int then cur as int - a as int else min as int)
  {
  }

  /**
   * The sum wraps before the clamp: `incrementClamp(1, MAX_VALUE)` on a
   * value of `Integer.MAX_VALUE` stores `Integer.MIN_VALUE`.
   */
  lemma ClampAfterWrap()
    ensures IncrementedClamp(MaxInt, 1, MaxInt) == MinInt
  {
  }

  /** `IntValue`: a `Value<Integer>` whose arithmetic updates go through `update`. */
  class IntValue {
    const base: Value<int32>

    ghost predicate Valid()
      reads this, base, base.rx, base.rx.chain
    {
      base.Valid() && base.eq == IntEquals
    }

    /** `new IntValue(v)`. */
    constructor (v: int32)
      ensures Valid() && base.value == Some(v) && base.rx.Model() == Empty()
      ensures fresh(base) && fresh(base.rx) && fresh(base.rx.chain)
    {
      base := new Value(Some(v), IntEquals);
    }

    /**
     * `updateInt(n)`: `update(n)`, then return `n`, the new value (unlike
     * `update`, which returns the previous one); a listener's exception
     * propagates instead.
     */
    method UpdateInt(n: int32, script: (nat, Change<int32>) -> seq<Action<Change<int32>>>, fuel: nat)
      returns (r: Result<int32>)
      requires Valid()
      modifies base, base.rx, base.rx.chain
      ensures Valid()
      ensures var (nv, st, res) := Updated(true, old(base.value), old(base.rx.Model()), Some(n), false, IntEquals, script, fuel);
        && base.value == nv == Some(n) && base.rx.Model() == st
        && r == (if res.Throws? then Throws(res.exn) else Ok(n))
    {
      var res := base.Update(Some(n), script, fuel);
      r := if res.Throws? then Throws(res.exn) else Ok(n);
    }

    /** Unboxing `get()`: a null value throws NullPointerException. */
    function Current(): (r: Result<int32>)
      reads this, base
      ensures base.value.Some? ==> r == Ok(base.value.value)
      ensures base.value.None? ==> r == Throws(NullPointer("null"))
    {
      match base.value
      case Some(v) => Ok(v)
      case None => Throws(NullPointer("null"))
    }

    /** `increment(a)`: stores and returns `get() + a`. */
    method Increment(a: int32, script: (nat, Change<int32>) -> seq<Action<Change<int32>>>, fuel: nat)
      returns (r: Result<int32>)
      requires Valid()
      modifies base, base.rx, base.rx.chain
      ensures Valid()
      ensures old(Current()).Throws? ==> r == old(Current()) && base.value == old(base.value) && base.rx.Model() == old(base.rx.Model())
      ensures old(Current()).Ok? ==> base.value == Some(Incremented(old(Current()).value, a))
      ensures r.Ok? ==> r.value == Incremented(old(Current()).value, a)
    {
      var cur := Current();
      if cur.Throws? {
        return cur;
      }
      r := UpdateInt(Incremented(cur.value, a), script, fuel);
    }

    /** `incrementClamp(a, max)`: stores and returns `min(get() + a, max)`. */
    method IncrementClamp(a: int32, max: int32, script: (nat, Change<int32>) -> seq<Action<Change<int32>>>, fuel: nat)
      returns (r: Result<int32>)
      requires Valid()
      modifies base, base.rx, base.rx.chain
      ensures Valid()
      ensures old(Current()).Throws? ==> r == old(Current()) && base.value == old(base.value) && base.rx.Model() == old(base.rx.Model())
      ensures old(Current()).Ok? ==> base.value == Some(IncrementedClamp(old(Current()).value, a, max))
      ensures r.Ok? ==> r.value == IncrementedClamp(old(Current()).value, a, max) && r.value <= max
    {
      var cur := Current();
      if cur.Throws? {
        return cur;
      }
      r := UpdateInt(IncrementedClamp(cur.value, a, max), script, fuel);
    }

    /** `incrementClamp(a, min, max)`: stores and returns the sum confined to `[min, max]`. */
    method IncrementClampRange(a: int32, min: int32, max: int32, script: (nat, Change<int32>) -> seq<Action<Change<int32>>>, fuel: nat)
      returns (r: Result<int32>)
      requires Valid()
      modifies base, base.rx, base.rx.chain
      ensures Valid()
      ensures old(Current()).Throws? ==> r == old(Current()) && base.value == old(base.value) && base.rx.Model() == old(base.rx.Model())
      ensures old(Current()).Ok? ==> base.value == Some(IncrementedClampRange(old(Current()).value, a, min, max))
      ensures r.Ok? ==> r.value == IncrementedClampRange(old(Current()).value, a, min, max) && min <= r.value
    {
      var cur := Current();
      if cur.Throws? {
        return cur;
      }
      r := UpdateInt(IncrementedClampRange(cur.value, a, min, max), script, fuel);
    }

    /** `decrementClamp(a, min)`: stores and returns `max(get() - a, min)`. */
    method DecrementClamp(a: int32, min: int32, script: (nat, Change<int32>) -> seq<Action<Change<int32>>>, fuel: nat)
      returns (r: Result<int32>)
      requires Valid()
      modifies base, base.rx, base.rx.chain
      ensures Valid()
      ensures old(Current()).Throws? ==> r == old(Current()) && base.value == old(base.value) && base.rx.Model() == old(base.rx.Model())
      ensures old(Current()).Ok? ==> base.value == Some(DecrementedClamp(old(Current()).value, a, min))
      ensures r.Ok? ==> r.value == DecrementedClamp(old(Current()).value, a, min) && min <= r.value
    {
      var cur := Current();
      if cur.Throws? {
        return cur;
      }
      r := UpdateInt(DecrementedClamp(cur.value, a, min), script, fuel);
    }
  }

  /**
   * An arithmetic update notifies only when the stored value changes: at
   * rest, with listeners that do nothing, storing `n` over `cur` delivers
   * `(n, cur)` to every open connection if `n != cur`, and nothing if equal.
   */
  lemma IntUpdateNotifiesOnChange(cur: int32, n: int32, st: State<Change<int32>>,
                                  script: (nat, Change<int32>) -> seq<Action<Change<int32>>>, fuel: nat)
    requires EngineFacts.Valid(st) && !st.dispatching && SignalScenarios.Quiet(script, Change(Some(n), Some(cur)))
    ensures var (nv, r, res) := Updated(true, Some(cur), st, Some(n), false, IntEquals, script, fuel);
      && nv == Some(n) && res == Ok(Some(cur))
      && r.log == st.log + (if n != cur then SignalScenarios.Deliveries(st.chain, st.cells, Change(Some(n), Some(cur))) else [])
  {
    UpdatedDelivers(Some(cur), st, Some(n), false, IntEquals, script, fuel);
  }
}
