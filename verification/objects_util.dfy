/**
 * Null-safe equality and hashing (react/ObjectsUtil.java), the rule that
 * react/Reactor.java repeats as `areEqual`.
 *
 * A Java reference is an `Option<T>`; Dafny's `==` on `T` stands for
 * reference identity, and `eq(x, b)` is what `x.equals(b)` answers for a
 * non-null `x`. `hash(x)` is what `x.hashCode()` answers.
 */
module ObjectsUtil {
  import opened Common

  /** `equals(a, b)`: the same reference (both null included), or a non-null `a` that says it equals `b`. */
  function Equals<T(==)>(a: Option<T>, b: Option<T>, eq: (T, Option<T>) -> bool): (r: bool)
    ensures a == b ==> r
    ensures a.None? ==> (r <==> b.None?)
    ensures a.Some? && a != b ==> (r <==> eq(a.value, b))
  {
    a == b || (a.Some? && eq(a.value, b))
  }

  /** `hashCode(o)`: 0 for null, the object's own hash otherwise. */
  function HashCode<T>(o: Option<T>, hash: T -> int): (r: int)
    ensures o.None? ==> r == 0
    ensures o.Some? ==> r == hash(o.value)
  {
    if o.Some? then hash(o.value) else 0
  }

  /** The contract `Object.equals` asks of an implementation: reflexive, false on null, symmetric, transitive. */
  ghost predicate EqualsContract<T(!new)>(eq: (T, Option<T>) -> bool) {
    && (forall x :: eq(x, Some(x)))
    && (forall x :: !eq(x, None))
    && (forall x, y :: eq(x, Some(y)) ==> eq(y, Some(x)))
    && (forall x, y, z :: eq(x, Some(y)) && eq(y, Some(z)) ==> eq(x, Some(z)))
  }

  /** The contract `Object.hashCode` asks: objects that are equal hash alike. */
  ghost predicate HashContract<T(!new)>(eq: (T, Option<T>) -> bool, hash: T -> int) {
    forall x, y :: eq(x, Some(y)) ==> hash(x) == hash(y)
  }

  /**
   * Given an `equals` that keeps its contract, the null-safe `equals` is
   * an equivalence on references, null included, and null equals only null.
   */
  lemma EqualsIsEquivalence<T(!new)>(eq: (T, Option<T>) -> bool, a: Option<T>, b: Option<T>, c: Option<T>)
    requires EqualsContract(eq)
    ensures Equals(a, a, eq)
    ensures Equals(a, b, eq) ==> Equals(b, a, eq)
    ensures Equals(a, b, eq) && Equals(b, c, eq) ==> Equals(a, c, eq)
    ensures Equals(a, b, eq) ==> (a.None? <==> b.None?)
  {
    if Equals(a, b, eq) && a != b {
      assert a.Some? && b.Some? && eq(a.value, Some(b.value));
      assert eq(b.value, Some(a.value));
    }
    if Equals(a, b, eq) && Equals(b, c, eq) && a != b && b != c {
      assert eq(a.value, Some(b.value)) && eq(b.value, Some(c.value));
    }
  }

  /** Given objects that keep both contracts, equal references hash alike. */
  lemma EqualsAgreesWithHashCode<T(!new)>(eq: (T, Option<T>) -> bool, hash: T -> int, a: Option<T>, b: Option<T>)
    requires EqualsContract(eq) && HashContract(eq, hash)
    requires Equals(a, b, eq)
    ensures HashCode(a, hash) == HashCode(b, hash)
  {
    if a != b {
      assert a.Some? && b.Some? && eq(a.value, Some(b.value));
    }
  }
}
