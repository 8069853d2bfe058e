/**
 * react/Try.java: the outcome of a computation, a value or the exception
 * it failed with, and the monadic operations on it.
 */
module Tries {
  import opened Common

  datatype Try<T> = Success(value: T) | Failure(cause: Exn)

  /** `isSuccess`. */
  predicate IsSuccess<T>(t: Try<T>) {
    t.Success?
  }

  /** `isFailure` is defined as the negation of `isSuccess`. */
  predicate IsFailure<T>(t: Try<T>) {
    !IsSuccess(t)
  }

  /** `get`: the value of a success; a failure rethrows its cause. */
  function Get<T>(t: Try<T>): (r: Result<T>)
    ensures IsSuccess(t) <==> r.Ok?
    ensures t.Success? ==> r == Ok(t.value)
    ensures t.Failure? ==> r == Throws(t.cause)
  {
    match t
    case Success(v) => Ok(v)
    case Failure(c) => Throws(c)
  }

  /** `getFailure`: the cause of a failure; a success throws IllegalStateException with no message. */
  function GetFailure<T>(t: Try<T>): (r: Result<Exn>)
    ensures IsFailure(t) <==> r.Ok?
    ensures t.Success? ==> r == Throws(IllegalState("null"))
    ensures t.Failure? ==> r == Ok(t.cause)
  {
    match t
    case Success(_) => Throws(IllegalState("null"))
    case Failure(c) => Ok(c)
  }

  /** `map`: a success is mapped through `f`; a failure passes through as is, and `f` is not applied. */
  function Map<T, R>(t: Try<T>, f: T -> R): (r: Try<R>)
    ensures IsSuccess(r) == IsSuccess(t)
    ensures t.Success? ==> r == Success(f(t.value))
    ensures t.Failure? ==> r == Failure(t.cause)
  {
    match t
    case Success(v) => Success(f(v))
    case Failure(c) => Failure(c)
  }

  /** `flatMap`: a success continues with `f`; a failure passes through as is. */
  function FlatMap<T, R>(t: Try<T>, f: T -> Try<R>): (r: Try<R>)
    ensures t.Failure? ==> r == Failure(t.cause)
    ensures t.Success? ==> r == f(t.value)
  {
    match t
    case Success(v) => f(v)
    case Failure(c) => Failure(c)
  }

  /** `lift(f)`: the function on tries that maps each one through `f`. */
  function Lift<T, R>(f: T -> R): (r: Try<T> -> Try<R>)
  {
    t => Map(t, f)
  }

  /** `success` and `failure` are the two constructors. */
  lemma Constructors<T>(v: T, c: Exn)
    ensures Get(Success(v)) == Ok(v) && GetFailure(Try<T>.Failure(c)) == Ok(c)
    ensures IsFailure(Try<T>.Failure(c)) && !IsFailure(Success(v))
  {
  }

  /** Exactly one of `get` and `getFailure` returns; the other throws. */
  lemma GetOrFailure<T>(t: Try<T>)
    ensures Get(t).Ok? != GetFailure(t).Ok?
    ensures IsFailure(t) <==> !IsSuccess(t)
  {
  }

  /** `lift(f)` applied to a try is that try's `map(f)`. */
  lemma LiftIsMap<T, R>(f: T -> R, t: Try<T>)
    ensures Lift(f)(t) == Map(t, f)
  {
  }

  /** `map` keeps the identity and composes: mapping by `f` then `g` is mapping by their composition. */
  lemma MapLaws<T, S, R>(t: Try<T>, f: T -> S, g: S -> R)
    ensures Map(t, x => x) == t
    ensures Map(Map(t, f), g) == Map(t, x => g(f(x)))
  {
  }

  /** `flatMap` with `success` is the identity; `flatMap` of a success-building function is `map`. */
  lemma FlatMapLaws<T, R>(t: Try<T>, f: T -> R)
    ensures FlatMap(t, x => Success(x)) == t
    ensures FlatMap(t, x => Success(f(x))) == Map(t, f)
  {
  }

  /** `flatMap` is associative, so chained stages fail at the first failing one. */
  lemma FlatMapAssociative<T, S, R>(t: Try<T>, f: T -> Try<S>, g: S -> Try<R>)
    ensures FlatMap(FlatMap(t, f), g) == FlatMap(t, x => FlatMap(f(x), g))
  {
  }
}
