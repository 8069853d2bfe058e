/**
 * react/RPromise.java and react/RFuture.java: a promise is a reactor over
 * tries that is completed once; a future reads its result and subscribes
 * to it. The aggregators `sequence` and `collect` count completions down
 * and complete their own promise when the count reaches zero; the order in
 * which the inputs complete is a parameter, `arrivals`.
 */
module Futures {
  import opened Common
  import opened Cons
  import opened Engine
  import opened Reactors
  import opened Tries
  import EngineFacts
  import ConnectionFacts
  import SignalScenarios

  const AlreadyCompleted := "Already completed"

  /**
   * The reactor after `complete(t)` started at rest: the pass that
   * delivers `t` (with the notifications it queued), then
   * `clearConnections`.
   */
  ghost function CompletedState<T>(st: State<Try<T>>, t: Try<T>, script: (nat, Try<T>) -> seq<Action<Try<T>>>, fuel: nat): State<Try<T>> {
    ClearConnections(Notify(script, st, t, fuel)).0
  }

  /** `RPromise`: completed at most once, and holding no listener once completed. */
  class Promise<T> {
    const rx: Reactor<Try<T>>
    /** `_result`; `None` until completed. */
    var result: Option<Try<T>>

    ghost predicate Valid()
      reads this, rx, rx.chain
    {
      rx.Valid() && !rx.dispatching
    }

    /** `RPromise.create()`: uncompleted, no listeners. */
    constructor ()
      ensures Valid() && result.None? && rx.Model() == Empty() && fresh(rx) && fresh(rx.chain)
    {
      rx := new Reactor();
      result := None;
    }

    /**
     * `complete(t)`: a completed promise throws IllegalStateException and
     * changes nothing. Otherwise the result is stored first, the listeners
     * are notified with `t`, and then, whatever they threw, every
     * connection is cleared; the first exception a listener threw is
     * rethrown.
     */
    method Complete(t: Try<T>, script: (nat, Try<T>) -> seq<Action<Try<T>>>, fuel: nat) returns (r: Result<()>)
      requires Valid()
      modifies this, rx, rx.chain
      ensures Valid()
      ensures old(result).Some? ==> r == Throws(IllegalState(AlreadyCompleted)) && result == old(result) && rx.Model() == old(rx.Model())
      ensures old(result).None? ==>
        && result == Some(t)
        && rx.Model() == CompletedState(old(rx.Model()), t, script, fuel)
        && r == (match Thrown(old(rx.Model()), rx.Model()) case None => Ok(()) case Some(e) => Throws(e))
    {
      if result.Some? {
        return Throws(IllegalState(AlreadyCompleted));
      }
      ghost var st := rx.Model();
      result := Some(t);
      var thrown := rx.Notify(script, t, fuel);
      EngineFacts.NotifyValid(script, st, t, fuel);
      var e := rx.ClearConnections();
      assert e.None?;
      r := if thrown.Some? then Throws(thrown.value) else Ok(());
    }

    /** `succeed(v)`: `complete(Success(v))`. */
    method Succeed(v: T, script: (nat, Try<T>) -> seq<Action<Try<T>>>, fuel: nat) returns (r: Result<()>)
      requires Valid()
      modifies this, rx, rx.chain
      ensures Valid()
      ensures old(result).Some? ==> r == Throws(IllegalState(AlreadyCompleted)) && result == old(result) && rx.Model() == old(rx.Model())
      ensures old(result).None? ==> result == Some(Success(v)) && rx.Model() == CompletedState(old(rx.Model()), Success(v), script, fuel)
    {
      r := Complete(Success(v), script, fuel);
    }

    /** `fail(cause)`: `complete(Failure(cause))`. */
    method Fail(cause: Exn, script: (nat, Try<T>) -> seq<Action<Try<T>>>, fuel: nat) returns (r: Result<()>)
      requires Valid()
      modifies this, rx, rx.chain
      ensures Valid()
      ensures old(result).Some? ==> r == Throws(IllegalState(AlreadyCompleted)) && result == old(result) && rx.Model() == old(rx.Model())
      ensures old(result).None? ==> result == Some(Try<T>.Failure(cause)) && rx.Model() == CompletedState(old(rx.Model()), Try<T>.Failure(cause), script, fuel)
    {
      r := Complete(Failure(cause), script, fuel);
    }

    /** `isCompleteNow()`: whether a result is held. */
    function IsCompleteNow(): (r: bool)
      reads this
      ensures r <==> result.Some?
    {
      result.Some?
    }
  }

  /**
   * After `complete`, no connection is left (the promise keeps no
   * listener), nothing is queued, and, when the listeners do nothing but
   * listen, every open one received the result once, in chain order, and
   * nothing was thrown.
   */
  lemma CompleteEffect<T>(st: State<Try<T>>, t: Try<T>, script: (nat, Try<T>) -> seq<Action<Try<T>>>, fuel: nat)
    requires EngineFacts.Valid(st) && !st.dispatching
    ensures var r := CompletedState(st, t, script, fuel);
      && !HasConnections(r) && r.pending == [] && EngineFacts.Valid(r)
      && (SignalScenarios.Quiet(script, t) ==>
            r.log == st.log + SignalScenarios.Deliveries(st.chain, st.cells, t) && r.errors == st.errors)
  {
    var n := Notify(script, st, t, fuel);
    EngineFacts.NotifyValid(script, st, t, fuel);
    ConnectionFacts.ClearConnectionsEffect(n);
    if SignalScenarios.Quiet(script, t) {
      SignalScenarios.QuietNotify(script, st, t, fuel);
    }
  }

  // ---------------------------------------------------------------------
  // Subscribing to a future: `onSuccess`, `onFailure`, `onComplete`.
  // ---------------------------------------------------------------------

  /** What subscribing does at once: connect (not yet complete), call the slot now, or nothing. */
  datatype Now<X> = Pending | FiredNow(arg: X) | Skipped

  /** What the listener `onSuccess` connects passes on when the result arrives. */
  function SuccessArrives<T>(t: Try<T>): (r: Option<T>)
    ensures r.Some? <==> t.Success?
    ensures t.Success? ==> r == Some(t.value)
  {
    match t
    case Success(v) => Some(v)
    case Failure(_) => None
  }

  /** What the listener `onFailure` connects passes on when the result arrives. */
  function FailureArrives<T>(t: Try<T>): (r: Option<Exn>)
    ensures r.Some? <==> t.Failure?
    ensures t.Failure? ==> r == Some(t.cause)
  {
    match t
    case Success(_) => None
    case Failure(c) => Some(c)
  }

  /**
   * `onSuccess(slot)`: on an uncompleted future it connects; on a completed
   * one it calls the slot at once with the value when it succeeded, and
   * does nothing when it failed.
   */
  function OnSuccessNow<T>(result: Option<Try<T>>): (r: Now<T>)
    ensures result.None? <==> r.Pending?
    ensures result.Some? ==> (r.FiredNow? <==> result.value.Success?)
    ensures result.Some? && result.value.Success? ==> r == FiredNow(result.value.value)
  {
    match result
    case None => Pending
    case Some(t) => match SuccessArrives(t) case Some(v) => FiredNow(v) case None => Skipped
  }

  /** `onFailure(slot)`: the same, for a failure and its cause. */
  function OnFailureNow<T>(result: Option<Try<T>>): (r: Now<Exn>)
    ensures result.None? <==> r.Pending?
    ensures result.Some? ==> (r.FiredNow? <==> result.value.Failure?)
    ensures result.Some? && result.value.Failure? ==> r == FiredNow(result.value.cause)
  {
    match result
    case None => Pending
    case Some(t) => match FailureArrives(t) case Some(c) => FiredNow(c) case None => Skipped
  }

  /** `onComplete(slot)`: connects, or calls the slot at once with the result, whatever it is. */
  function OnCompleteNow<T>(result: Option<Try<T>>): (r: Now<Try<T>>)
    ensures result.None? <==> r.Pending?
    ensures result.Some? ==> r == FiredNow(result.value)
  {
    match result
    case None => Pending
    case Some(t) => FiredNow(t)
  }

  /**
   * A slot hears the same thing whether it subscribed before or after
   * completion: what a late `onSuccess`/`onFailure` does at once is what
   * an early one's listener passes on when the result arrives.
   */
  lemma EarlyAndLateAgree<T>(t: Try<T>)
    ensures OnSuccessNow(Some(t)) == (if SuccessArrives(t).Some? then FiredNow(SuccessArrives(t).value) else Skipped)
    ensures OnFailureNow(Some(t)) == (if FailureArrives(t).Some? then FiredNow(FailureArrives(t).value) else Skipped)
    ensures OnCompleteNow(Some(t)) == FiredNow(t)
  {
  }

  // ---------------------------------------------------------------------
  // `map` and `flatMap` on the result a future holds (`None`: not yet).
  // ---------------------------------------------------------------------

  /** `map(f)`: pending stays pending, a success is mapped, a failure passes through. */
  function MapResult<T, R>(result: Option<Try<T>>, f: T -> R): (r: Option<Try<R>>)
    ensures result.None? <==> r.None?
    ensures result.Some? ==> r == Some(Tries.Map(result.value, f))
  {
    match result
    case None => None
    case Some(t) => Some(Tries.Map(t, f))
  }

  /**
   * `flatMap(f)`: pending stays pending; a failure is passed on; a success
   * `v` gives whatever the future `f(v)` holds, its failure included.
   */
  function FlatMapResult<T, R>(result: Option<Try<T>>, f: T -> Option<Try<R>>): (r: Option<Try<R>>)
    ensures result.None? ==> r.None?
    ensures result.Some? && result.value.Failure? ==> r == Some(Try<R>.Failure(result.value.cause))
    ensures result.Some? && result.value.Success? ==> r == f(result.value.value)
  {
    match result
    case None => None
    case Some(Failure(c)) => Some(Failure(c))
    case Some(Success(v)) => f(v)
  }

  /**
   * `flatMap` fails exactly when one of the two stages fails, with that
   * stage's cause; and `map(f)` is `flatMap` into an already-successful
   * future.
   */
  lemma FlatMapFailsIfEitherFails<T, R>(result: Option<Try<T>>, f: T -> Option<Try<R>>, g: T -> R)
    ensures var r := FlatMapResult(result, f);
      r.Some? && r.value.Failure? <==>
        result.Some? && (result.value.Failure? || (f(result.value.value).Some? && f(result.value.value).value.Failure?))
    ensures MapResult(result, g) == FlatMapResult(result, v => Some(Try<R>.Success(g(v))))
  {
  }

  // ---------------------------------------------------------------------
  // `sequence`: the Sequencer.
  // ---------------------------------------------------------------------

  /** The failure causes among the arrivals, in arrival order. */
  ghost function Failures<T>(arrivals: seq<(nat, Try<T>)>): (r: seq<Exn>)
    ensures |r| <= |arrivals|
    ensures r == [] <==> forall k :: 0 <= k < |arrivals| ==> arrivals[k].1.Success?
  {
    if arrivals == [] then []
    else
      var last := arrivals[|arrivals| - 1];
      var prev := Failures(arrivals[..|arrivals| - 1]);
      assert forall k :: 0 <= k < |arrivals| - 1 ==> arrivals[..|arrivals| - 1][k] == arrivals[k];
      prev + (if last.1.Failure? then [last.1.cause] else [])
  }

  /** The success value that arrived for index `i`, if any (null until then). */
  ghost function ValueAt<T>(arrivals: seq<(nat, Try<T>)>, i: int): Option<T> {
    if arrivals == [] then None
    else
      var last := arrivals[|arrivals| - 1];
      if last.0 == i && last.1.Success? then Some(last.1.value) else ValueAt(arrivals[..|arrivals| - 1], i)
  }

  /** Each input completes once, so each index arrives at most once, and every index is in range. */
  ghost predicate ArrivalOrder<T>(count: nat, arrivals: seq<(nat, Try<T>)>) {
    && (forall k :: 0 <= k < |arrivals| ==> arrivals[k].0 < count)
    && (forall j, k :: 0 <= j < k < |arrivals| ==> arrivals[j].0 != arrivals[k].0)
  }

  /** What `sequence` completes with once every input has: the failures, or the values by index. */
  ghost function SequenceOutcome<T>(count: nat, arrivals: seq<(nat, Try<T>)>): Try<seq<Option<T>>> {
    if Failures(arrivals) != [] then Failure(Multi(Failures(arrivals)))
    else Success(seq(count, i => ValueAt(arrivals, i)))
  }

  /** With distinct indices, the value an index holds is the one its own arrival brought. */
  lemma {:induction false} ValueAtArrival<T>(count: nat, arrivals: seq<(nat, Try<T>)>, k: nat)
    requires ArrivalOrder(count, arrivals) && k < |arrivals| && arrivals[k].1.Success?
    ensures ValueAt(arrivals, arrivals[k].0) == Some(arrivals[k].1.value)
  {
    var n := |arrivals| - 1;
    if k < n {
      var pre := arrivals[..n];
      assert pre[k] == arrivals[k];
      assert ArrivalOrder(count, pre) by {
        assert forall j :: 0 <= j < n ==> pre[j] == arrivals[j];
      }
      ValueAtArrival(count, pre, k);
    }
  }

  /**
   * When every input succeeds, slot `i` of the result holds input `i`'s
   * value, whatever order they completed in.
   */
  lemma SequenceKeepsIndices<T>(count: nat, arrivals: seq<(nat, Try<T>)>)
    requires ArrivalOrder(count, arrivals) && forall k :: 0 <= k < |arrivals| ==> arrivals[k].1.Success?
    ensures SequenceOutcome(count, arrivals).Success?
    ensures forall k :: 0 <= k < |arrivals| ==> SequenceOutcome(count, arrivals).value[arrivals[k].0] == Some(arrivals[k].1.value)
  {
    forall k | 0 <= k < |arrivals|
      ensures SequenceOutcome(count, arrivals).value[arrivals[k].0] == Some(arrivals[k].1.value)
    {
      ValueAtArrival(count, arrivals, k);
    }
  }

  /** The object `sequence` builds: one slot per input, a countdown, the failures so far. */
  class Sequencer<T> {
    /** `_results`. */
    const results: array<Option<T>>
    /** `_remain`. */
    var remain: int
    /** `_error`: the failures collected so far, `None` while it is null. */
    var error: Option<seq<Exn>>
    /** What the promise `pseq` was completed with. */
    var completed: Option<Try<seq<Option<T>>>>

    constructor (count: nat)
      ensures results.Length == count && fresh(results) && remain == count && error.None? && completed.None?
      ensures forall i :: 0 <= i < count ==> results[i].None?
    {
      results := new Option<T>[count](_ => None);
      remain := count;
      error := None;
      completed := None;
    }

    /**
     * `onResult(idx, result)`: stores a success in its slot or adds a
     * failure to the error; when the countdown reaches zero, completes
     * `pseq` with the error if there is one, or with the slots.
     */
    method OnResult(idx: nat, t: Try<T>) returns (r: Result<()>)
      requires idx < results.Length
      modifies this, results
      ensures remain == old(remain) - 1
      ensures t.Success? ==> results[..] == old(results[..])[idx := Some(t.value)] && error == old(error)
      ensures t.Failure? ==> results[..] == old(results[..]) && error == Some((if old(error).None? then [] else old(error).value) + [t.cause])
      ensures remain != 0 ==> completed == old(completed) && r == Ok(())
      ensures remain == 0 && old(completed).None? ==>
        r == Ok(()) && completed == Some(if error.Some? then Failure(Multi(error.value)) else Success(results[..]))
      ensures remain == 0 && old(completed).Some? ==> r == Throws(IllegalState(AlreadyCompleted)) && completed == old(completed)
    {
      if t.Success? {
        results[idx] := Some(t.value);
      } else {
        var sofar := if error.None? then [] else error.value;
        error := Some(sofar + [t.cause]);
      }
      remain := remain - 1;
      r := Ok(());
      if remain == 0 {
        if completed.Some? {
          return Throws(IllegalState(AlreadyCompleted));
        }
        completed := Some(if error.Some? then Failure(Multi(error.value)) else Success(results[..]));
      }
    }
  }

  /**
   * `sequence(futures)` as its inputs complete in the order `arrivals`:
   * no input gives an immediate empty success; otherwise the result is
   * complete exactly when every input is, and then it is the failures in
   * arrival order, or, when none failed, every input's value at its index.
   */
  method Sequence<T>(count: nat, arrivals: seq<(nat, Try<T>)>) returns (outcome: Option<Try<seq<Option<T>>>>)
    requires ArrivalOrder(count, arrivals) && |arrivals| <= count
    ensures count == 0 ==> outcome == Some(Success([]))
    ensures count > 0 ==> (outcome.Some? <==> |arrivals| == count)
    ensures count > 0 && outcome.Some? ==> outcome.value == SequenceOutcome(count, arrivals)
  {
    if count == 0 {
      return Some(Success([]));
    }
    var sq := new Sequencer<T>(count);
    var k := 0;
    assert arrivals[..0] == [];
    while k < |arrivals|
      invariant 0 <= k <= |arrivals|
      invariant Fed(sq, count, arrivals[..k])
    {
      TakeOneMore(arrivals, k);
      assert ArrivalOrder(count, arrivals[..k + 1]) by {
        assert forall j :: 0 <= j <= k ==> arrivals[..k + 1][j] == arrivals[j];
      }
      Feed(sq, count, arrivals[..k], arrivals[k]);
      k := k + 1;
    }
    assert arrivals[..k] == arrivals;
    outcome := sq.completed;
  }

  /**
   * The sequencer's state once the completions `done` have arrived: each
   * slot holds its value, the countdown is down by one per completion, the
   * error lists the failures, and the promise is completed after the last.
   */
  ghost predicate Fed<T>(sq: Sequencer<T>, count: nat, done: seq<(nat, Try<T>)>)
    reads sq, sq.results
  {
    && sq.results.Length == count && sq.remain == count - |done|
    && (forall i :: 0 <= i < count ==> sq.results[i] == ValueAt(done, i))
    && sq.error == (if Failures(done) == [] then None else Some(Failures(done)))
    && (|done| < count ==> sq.completed.None?)
    && (|done| == count ==> sq.completed == Some(SequenceOutcome(count, done)))
  }

  /** What one more arrival adds to the failures and to the value an index holds. */
  lemma SnocStep<T>(done: seq<(nat, Try<T>)>, a: (nat, Try<T>))
    ensures a.1.Success? ==> Failures(done + [a]) == Failures(done)
    ensures a.1.Failure? ==> Failures(done + [a]) == Failures(done) + [a.1.cause]
    ensures forall i :: ValueAt(done + [a], i) == if a.0 == i && a.1.Success? then Some(a.1.value) else ValueAt(done, i)
  {
    assert (done + [a])[..|done|] == done;
  }

  /** One more input completes: the listener's `onResult` call for it. */
  method Feed<T>(sq: Sequencer<T>, count: nat, done: seq<(nat, Try<T>)>, a: (nat, Try<T>))
    requires Fed(sq, count, done) && |done| < count && ArrivalOrder(count, done + [a])
    modifies sq, sq.results
    ensures Fed(sq, count, done + [a])
  {
    var all := done + [a];
    SnocStep(done, a);
    var _ := sq.OnResult(a.0, a.1);
    if |all| == count {
      assert sq.results[..] == seq(count, i => ValueAt(all, i));
    }
  }

  // ---------------------------------------------------------------------
  // `collect`.
  // ---------------------------------------------------------------------

  /** The success values among the completions, in arrival order. */
  ghost function Successes<T>(arrivals: seq<Try<T>>): (r: seq<T>)
    ensures |r| <= |arrivals|
  {
    if arrivals == [] then []
    else
      var last := arrivals[|arrivals| - 1];
      Successes(arrivals[..|arrivals| - 1]) + (if last.Success? then [last.value] else [])
  }

  /** A value is collected exactly when some input succeeded with it. */
  lemma {:induction false} SuccessesMembers<T>(arrivals: seq<Try<T>>, v: T)
    ensures v in Successes(arrivals) <==> Success(v) in arrivals
  {
    if arrivals != [] {
      SuccessesMembers(arrivals[..|arrivals| - 1], v);
      assert arrivals == arrivals[..|arrivals| - 1] + [arrivals[|arrivals| - 1]];
    }
  }

  /** The listener `collect` connects to every input. */
  class Collector<T> {
    /** `_results`. */
    var results: seq<T>
    /** `_remain`. */
    var remain: int
    var completed: Option<Try<seq<T>>>

    constructor (count: nat)
      ensures results == [] && remain == count && completed.None?
    {
      results := [];
      remain := count;
      completed := None;
    }

    /** `onEmit(result)`: keeps a success; at zero, completes `pseq` with what it kept. */
    method OnEmit(t: Try<T>) returns (r: Result<()>)
      modifies this
      ensures results == old(results) + (if t.Success? then [t.value] else [])
      ensures remain == old(remain) - 1
      ensures remain != 0 ==> completed == old(completed) && r == Ok(())
      ensures remain == 0 && old(completed).None? ==> completed == Some(Success(results)) && r == Ok(())
      ensures remain == 0 && old(completed).Some? ==> completed == old(completed) && r == Throws(IllegalState(AlreadyCompleted))
    {
      if t.Success? {
        results := results + [t.value];
      }
      remain := remain - 1;
      r := Ok(());
      if remain == 0 {
        if completed.Some? {
          return Throws(IllegalState(AlreadyCompleted));
        }
        completed := Some(Success(results));
      }
    }
  }

  /**
   * `collect(futures)` as its inputs complete in the order `arrivals`: it
   * never fails; it completes exactly when every input has, with the
   * success values only (none, for no inputs).
   */
  method Collect<T>(count: nat, arrivals: seq<Try<T>>) returns (outcome: Option<Try<seq<T>>>)
    requires |arrivals| <= count
    ensures count == 0 ==> outcome == Some(Success([]))
    ensures count > 0 ==> (outcome.Some? <==> |arrivals| == count)
    ensures outcome.Some? ==> outcome.value == Success(Successes(arrivals))
  {
    if count == 0 {
      return Some(Success([]));
    }
    var col := new Collector<T>(count);
    var k := 0;
    while k < |arrivals|
      invariant 0 <= k <= |arrivals|
      invariant col.results == Successes(arrivals[..k]) && col.remain == count - k
      invariant k < count ==> col.completed.None?
      invariant k == count ==> col.completed == Some(Success(Successes(arrivals[..k])))
    {
      assert arrivals[..k + 1][..k] == arrivals[..k];
      var _ := col.OnEmit(arrivals[k]);
      k := k + 1;
    }
    assert arrivals[..k] == arrivals;
    outcome := col.completed;
  }

  // ---------------------------------------------------------------------
  // `next()` on a signal: a one-shot connection that succeeds a promise.
  // ---------------------------------------------------------------------

  /**
   * `next()`: connects the promise's `succeed` (as `slot`) and makes the
   * connection one-shot. The returned cell is open and one-shot; it is
   * linked at once at rest, and its linking is queued when `next()` is
   * called from inside the signal's pass.
   */
  method Next<T>(signal: Reactor<T>, slot: nat) returns (c: CellId)
    requires signal.Valid()
    modifies signal, signal.chain
    ensures signal.Valid() && signal.dispatching == old(signal.dispatching)
    ensures var (st, res) := Engine.AddConnection(old(signal.Model()), Some(slot));
      res == Ok(c) && signal.Model() == Engine.Once(st, c)
    ensures c in signal.cells && signal.cells[c].oneShot && signal.cells[c].owned
    ensures !old(signal.dispatching) ==> c in signal.chain.members
    ensures old(signal.dispatching) ==> signal.chain.members == old(signal.chain.members) && signal.pending == old(signal.pending) + [InsertRun(c)]
  {
    if signal.dispatching {
      ConnectionFacts.AddConnectionDuringPass(signal.Model(), slot);
    } else {
      ConnectionFacts.AddConnectionAtRest(signal.Model(), Some(slot));
    }
    var res := signal.AddConnection(Some(slot));
    c := res.value;
    ConnectionFacts.OnceEffect(signal.Model(), c);
    signal.Once(c);
  }

  /**
   * The promise `next()` returns hears at most one emission: the next
   * `notify` delivers to its cell at most once, its queued notifications
   * included.
   */
  lemma NextAtMostOnce<T>(st: State<T>, slot: nat, script: (nat, T) -> seq<Action<T>>, p: T, fuel: nat)
    requires EngineFacts.Valid(st) && !st.dispatching
    ensures var (s1, res) := Engine.AddConnection(st, Some(slot));
      var s2 := Engine.Once(s1, st.nextId);
      EngineFacts.Count(EngineFacts.Fresh(s2, Notify(script, s2, p, fuel)), st.nextId) <= 1
  {
    var (s1, res) := Engine.AddConnection(st, Some(slot));
    ConnectionFacts.AddConnectionAtRest(st, Some(slot));
    var c := st.nextId;
    ConnectionFacts.OnceEffect(s1, c);
    var s2 := Engine.Once(s1, c);
    EngineFacts.ApplyValid(s1, SetOnce(c));
    EngineFacts.OneShotAtMostOnce(script, s2, p, fuel, c);
  }
}
